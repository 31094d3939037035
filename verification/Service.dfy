/** What the broker hands out: a resolve that releases only components both the
    binding and the grant list, and a rotation that replaces one secret. */
module Service {
  import opened Lists
  import opened BrokerPolicy
  import opened Metadata
  import opened VaultRecords
  import opened Approval
  import opened ApprovalSafety
  import opened ApprovalHistory
  import opened ApprovalRecovery

  datatype Denial = RequestInvalid | FileInvalid | BindingUnavailable | AccessDenied | VaultLocked

  datatype Credential = Credential(binding: string, kind: string, envVar: string, value: string,
                                   components: map<string, string>)

  datatype Answer = Released(credential: Credential) | Withheld(why: Denial)

  /** An empty list means the primary secret only. */
  predicate ListedIn(components: seq<string>, key: string) {
    if components == [] then key == "primary" else key in components
  }

  predicate Shared(b: Binding, g: Grant, key: string) {
    ListedIn(b.components, key) && ListedIn(g.components, key)
  }

  /** A named part that may leave the vault through this binding and grant. */
  predicate Releasable(b: Binding, g: Grant, part: NamedSecret) {
    Shared(b, g, part.key) && part.secret != "" && part.envVar != ""
  }

  /** `components` maps each environment variable of a releasable part to the
      last such part's secret, and nothing else. */
  ghost predicate Collects(components: map<string, string>, b: Binding, g: Grant, parts: seq<NamedSecret>) {
    && (forall i :: 0 <= i < |parts| && Releasable(b, g, parts[i]) ==> parts[i].envVar in components)
    && (forall e :: e in components ==>
          exists i :: 0 <= i < |parts| && Releasable(b, g, parts[i]) && parts[i].envVar == e
                      && parts[i].secret == components[e]
                      && forall j :: i < j < |parts| && Releasable(b, g, parts[j]) ==> parts[j].envVar != e)
  }

  /** The binding, grant and record a permitted request goes through. */
  function BindingFor(s: Store, name: string): Binding
    requires Locate(s.meta.bindings, BindingNamed(name)) >= 0
  {
    s.meta.bindings[Locate(s.meta.bindings, BindingNamed(name))]
  }

  function GrantFor(s: Store, name: string, client: Client, c: Capability, now: int): Grant
    requires Locate(s.meta.bindings, BindingNamed(name)) >= 0
    requires Locate(s.meta.grants, Authorizing(BindingFor(s, name).id, client, c, now)) >= 0
  {
    s.meta.grants[Locate(s.meta.grants, Authorizing(BindingFor(s, name).id, client, c, now))]
  }

  function RecordFor(s: Store, name: string): SecretRecord
    requires Locate(s.meta.bindings, BindingNamed(name)) >= 0
    requires Locate(LoadedAll(s.vault), RecordWithID(BindingFor(s, name).secretId)) >= 0
  {
    LoadedAll(s.vault)[Locate(LoadedAll(s.vault), RecordWithID(BindingFor(s, name).secretId))]
  }

  method CollectComponents(b: Binding, g: Grant, parts: seq<NamedSecret>) returns (components: map<string, string>)
    ensures Collects(components, b, g, parts)
  {
    components := map[];
    for i := 0 to |parts|
      invariant Collects(components, b, g, parts[..i])
    {
      var part := parts[i];
      assert parts[..i + 1] == parts[..i] + [part];
      ghost var before := components;
      if !ListedIn(b.components, part.key) || !ListedIn(g.components, part.key) {
      } else if part.secret == "" || part.envVar == "" {
      } else {
        components := components[part.envVar := part.secret];
      }
      CollectStep(before, components, b, g, parts, i);
    }
    assert parts[..|parts|] == parts;
  }

  lemma CollectStep(before: map<string, string>, after: map<string, string>, b: Binding, g: Grant,
                    parts: seq<NamedSecret>, i: nat)
    requires i < |parts| && Collects(before, b, g, parts[..i])
    requires after == if Releasable(b, g, parts[i]) then before[parts[i].envVar := parts[i].secret] else before
    ensures Collects(after, b, g, parts[..i + 1])
  {
    hide Releasable;
    var seen := parts[..i + 1];
    forall e | e in after
      ensures exists k :: 0 <= k < |seen| && Releasable(b, g, seen[k]) && seen[k].envVar == e && seen[k].secret == after[e]
                          && forall j :: k < j < |seen| && Releasable(b, g, seen[j]) ==> seen[j].envVar != e
    {
      if Releasable(b, g, parts[i]) && e == parts[i].envVar {
        assert seen[i].envVar == e;
      } else {
        CollectedEarlier(before, b, g, parts, i, e);
      }
    }
  }

  lemma CollectedEarlier(before: map<string, string>, b: Binding, g: Grant, parts: seq<NamedSecret>, i: nat, e: string)
    requires i < |parts| && Collects(before, b, g, parts[..i]) && e in before
    requires !(Releasable(b, g, parts[i]) && parts[i].envVar == e)
    ensures var seen := parts[..i + 1];
            exists k :: 0 <= k < |seen| && Releasable(b, g, seen[k]) && seen[k].envVar == e && seen[k].secret == before[e]
                        && forall j :: k < j < |seen| && Releasable(b, g, seen[j]) ==> seen[j].envVar != e
  {
    hide Releasable;
    var seen, past := parts[..i + 1], parts[..i];
    var k :| 0 <= k < i && Releasable(b, g, past[k]) && past[k].envVar == e && past[k].secret == before[e]
             && forall j :: k < j < i && Releasable(b, g, past[j]) ==> past[j].envVar != e;
    assert seen[k] == past[k];
    assert forall j :: 0 <= j < i ==> seen[j] == past[j];
  }

  /** Whether a resolve that passes both gates has anything to hand out. */
  ghost predicate HasMaterial(b: Binding, g: Grant, r: SecretRecord) {
    (r.secret != "" && Shared(b, g, "primary")) || exists part <- r.extra :: Releasable(b, g, part)
  }

  /** The generic error a refused resolve gives, in the order of its checks. */
  function Refusal(s: Store, name: string, client: Client, vaultOk: bool, now: int): Denial {
    var b := Locate(s.meta.bindings, BindingNamed(name));
    if b < 0 then BindingUnavailable
    else if Locate(s.meta.grants, Authorizing(s.meta.bindings[b].id, client, Resolve, now)) < 0 then AccessDenied
    else if !vaultOk then VaultLocked
    else if !Grantable(LoadedAll(s.vault), s.meta.bindings[b].secretId) then BindingUnavailable
    else if !Usable(LoadedAll(s.vault), s.meta.bindings[b].secretId, Resolve) then AccessDenied
    else BindingUnavailable
  }

  /** Both gates allow, and something is listed. */
  ghost predicate Releases(s: Store, name: string, client: Client, now: int) {
    && PeerAllowed(s, name, client, Resolve, now)
    && HasMaterial(BindingFor(s, name), GrantFor(s, name, client, Resolve, now), RecordFor(s, name))
  }

  /** The primary secret only if both lists have it, and exactly the listed parts. */
  ghost predicate Discloses(c: Credential, s: Store, name: string, client: Client, now: int)
    requires PeerAllowed(s, name, client, Resolve, now)
  {
    var b, g, r := BindingFor(s, name), GrantFor(s, name, client, Resolve, now), RecordFor(s, name);
    && c.binding == name && c.kind == r.kind
    && c.value == (if Shared(b, g, "primary") then r.secret else "")
    && c.envVar == (if r.secret != "" && Shared(b, g, "primary") then r.envVarHint else "")
    && Collects(c.components, b, g, r.extra)
  }


  method ResolveSnapshot(f: BrokerFile, vault: seq<SecretRecord>, name: string, client: Client, vaultOk: bool, now: int)
    returns (a: Answer)
    ensures a.Released? <==> vaultOk && Releases(Store(f.Value(), vault), name, client, now)
    ensures a.Released? ==> Discloses(a.credential, Store(f.Value(), vault), name, client, now)
    ensures a.Withheld? ==> a.why == Refusal(Store(f.Value(), vault), name, client, vaultOk, now)
  {
    hide Collects, Authorizing, Loaded;
    var at := f.FindBinding(name);
    if at < 0 {
      return Withheld(BindingUnavailable);
    }
    var binding := f.bindings[at];
    var g := f.FindGrant(binding.id, client, Resolve, now);
    if g < 0 {
      return Withheld(AccessDenied);
    }
    if !vaultOk {
      return Withheld(VaultLocked);
    }
    var v := new Vault(vault);
    var r := v.Get(binding.secretId);
    if r < 0 || v.keys[r].archived {
      return Withheld(BindingUnavailable);
    }
    var rec := v.keys[r];
    if !rec.policy.Permits(Resolve) {
      return Withheld(AccessDenied);
    }
    var envVar, value := "", "";
    if rec.secret != "" && ListedIn(binding.components, "primary") && ListedIn(f.grants[g].components, "primary") {
      envVar, value := rec.envVarHint, rec.secret;
    }
    var components := CollectComponents(binding, f.grants[g], rec.extra);
    EmptyCollection(components, binding, f.grants[g], rec.extra);
    if value == "" && components == map[] {
      return Withheld(BindingUnavailable);
    }
    return Released(Credential(binding.name, rec.kind, envVar, value, components));
  }

  /** A resolve request reads the metadata afresh, under its lock. */
  method ResolveCredential(st: Stores, name: string, client: Client, io: IO) returns (a: Answer)
    ensures a == Withheld(RequestInvalid) <==> name == ""
    ensures a == Withheld(FileInvalid) <==> name != "" && !ValidFile(Opened(st.meta))
    ensures name != "" && ValidFile(Opened(st.meta)) && a.Withheld?
            ==> a.why == Refusal(Store(Opened(st.meta), st.vault), name, client, io.vaultOk, io.now)
    ensures a.Released? <==> name != "" && ValidFile(Opened(st.meta)) && io.vaultOk
                             && Releases(Store(Opened(st.meta), st.vault), name, client, io.now)
    ensures a.Released? ==> Discloses(a.credential, Store(Opened(st.meta), st.vault), name, client, io.now)
  {
    hide ValidFile, Discloses;
    if name == "" {
      return Withheld(RequestInvalid);
    }
    var loaded, f := st.LoadBrokerFile();
    if !loaded {
      return Withheld(FileInvalid);
    }
    a := ResolveSnapshot(f, st.vault, name, client, io.vaultOk, io.now);
  }

  lemma EmptyCollection(components: map<string, string>, b: Binding, g: Grant, parts: seq<NamedSecret>)
    requires Collects(components, b, g, parts)
    ensures components == map[] <==> !exists part <- parts :: Releasable(b, g, part)
  {
  }

  // ---------------------------------------------------------------- rotation

  /** A rotation's durable effect: at most one vault write, no metadata write. */
  function RotateRun(s: Store, name: string, value: string, client: Client, io: IO): Run {
    if name == "" || value == "" || !ValidFile(Opened(s.meta))
       || !PeerAllowed(s.(meta := Opened(s.meta)), name, client, Rotate, io.now) || !io.vaultOk
    then Run([], [])
    else Run([s.(vault := WrittenAll(s.vault, RotateEdit(BindingFor(s, name).secretId, value, io.now)))], [])
  }

  method RotateSecret(st: Stores, name: string, value: string, client: Client, io: IO) returns (ok: bool)
    requires UniqueIDs(st.vault)
    modifies st
    ensures UniqueIDs(st.vault)
    ensures var run := RotateRun(old(st.Now()), name, value, client, io);
            st.Ran(run) && ok == (run.writes != [])
  {
    hide ValidFile, WrittenAll, Authorizing;
    if name == "" || value == "" {
      return false;
    }
    var loaded, f := st.LoadBrokerFile();
    if !loaded {
      return false;
    }
    var at := f.FindBinding(name);
    if at < 0 {
      return false;
    }
    var g := f.FindGrant(f.bindings[at].id, client, Rotate, io.now);
    if g < 0 || !io.vaultOk {
      return false;
    }
    ok := RotateInVault(st, f.bindings[at].secretId, value, io.now);
  }

  /** One vault transaction: check the record and replace its secret. */
  method RotateInVault(st: Stores, target: string, value: string, now: int) returns (ok: bool)
    requires UniqueIDs(st.vault)
    modifies st
    ensures UniqueIDs(st.vault) && st.meta == old(st.meta)
    ensures ok <==> Usable(LoadedAll(old(st.vault)), target, Rotate)
    ensures ok ==> st.vault == WrittenAll(old(st.vault), RotateEdit(target, value, now))
                   && st.history == old(st.history) + [st.Now()]
    ensures !ok ==> st.vault == old(st.vault) && st.history == old(st.history)
  {
    LoadedKeepsIDs(st.vault, target);
    var v := new Vault(st.vault);
    ok := v.Rotate(target, value, now);
    if ok {
      st.WriteVault(v);
      assert st.vault == WrittenAll(old(st.vault), RotateEdit(target, value, now));
    }
  }

  /** A rotation touches nothing but the secret and timestamps of the record its
      binding names: no policy, label, other record or metadata. */
  lemma RotationIsNarrow(s: Store, name: string, value: string, client: Client, io: IO, k: nat)
    requires AllStored(s.vault) && k < |s.vault|
    ensures var after := Final(s, RotateRun(s, name, value, client, io));
            && after.meta == s.meta && |after.vault| == |s.vault|
            && (after.vault[k] == s.vault[k]
                || (&& PeerAllowed(s.(meta := Opened(s.meta)), name, client, Rotate, io.now)
                    && s.vault[k].id == BindingFor(s, name).secretId
                    && after.vault[k] == s.vault[k].(secret := value, updatedAt := io.now, rotatedAt := Some(io.now))))
  {
    hide ValidFile, Usable;
    assert s.vault[k] in s.vault;
    if RotateRun(s, name, value, client, io).writes != [] {
      RotatedRecord(s.vault[k], BindingFor(s, name).secretId, value, io.now);
    }
  }

  lemma RotatedRecord(r: SecretRecord, target: string, value: string, now: int)
    requires IsStored(r)
    ensures Written(r, RotateEdit(target, value, now))
         == if r.id == target then r.(secret := value, updatedAt := now, rotatedAt := Some(now)) else r
  {
  }

  /** In every reachable state of the protocol, a rotation that changes anything
      is made through a grant whose commit completed earlier in the run, and is
      itself a step of the protocol. */
  lemma RotationNeedsCommit(ms: seq<Machine>, es: seq<Event>, k: nat, name: string, value: string, client: Client, io: IO)
    returns (g: Grant, j: nat)
    requires IsRun(ms, es) && k < |ms| && ms[k].inflight.None?
    requires RotateRun(ms[k].store, name, value, client, io).writes != []
    ensures g in ms[k].store.meta.grants && g.enabled && Rotate in g.capabilities && !Expired(g, io.now)
    ensures j < k && CommittedAt(ms, es, j, g.id)
    ensures var after := ms[k].(store := Final(ms[k].store, RotateRun(ms[k].store, name, value, client, io)));
            Step(ms[k], PeerRotate(BindingFor(ms[k].store, name).secretId, value, io.now), after)
  {
    EveryStateLinked(ms, es, k);
    assert Opened(ms[k].store.meta) == ms[k].store.meta;
    g, j := AuthorisedOnlyByCommit(ms, es, k, name, client, Rotate, io.now);
  }
}
