/** Who gets what, said in the fields of the two files: which peer is let
    through, by which grant, and which parts of the record leave the vault. */
module PeerAccess {
  import opened Lists
  import opened BrokerPolicy
  import opened Metadata
  import opened VaultRecords
  import opened Approval
  import opened ApprovalSafety
  import opened ApprovalHistory
  import opened ApprovalRecovery
  import opened CallEffects
  import opened Service

  /** The identity a grant pins is the peer's: the same user, and the same path
      and hash wherever the grant names one, which a valid grant does. A peer
      that runs a shared interpreter needs a grant that says so and was
      acknowledged; any other needs one for a dedicated executable. */
  lemma AdmittedFacts(granted: Client, actual: Client)
    requires ClientMatches(granted, actual)
    ensures granted.uid == actual.uid
    ensures granted.executable.path == "" || granted.executable.path == actual.executable.path
    ensures granted.hash == "" || granted.hash == actual.hash
    ensures actual.executable.interpreter ==>
              granted.acknowledged
              && (granted.scope == InterpreterWide || (granted.scope == ScopeUnset && granted.executable.interpreter))
    ensures !actual.executable.interpreter ==>
              granted.scope == Dedicated || (granted.scope == ScopeUnset && !granted.executable.interpreter)
  {
  }

  /** A peer that is let through: the binding of the name, an enabled grant on
      it that lists the capability, is not past its time and pins this peer, and
      the record, in use and with the bit allowed. */
  lemma LetThroughFacts(s: Store, name: string, client: Client, c: Capability, now: int)
    returns (b: Binding, g: Grant, r: SecretRecord)
    requires ValidFile(s.meta) && c.Known() && PeerAllowed(s, name, client, c, now)
    ensures b in s.meta.bindings && b.name == name
    ensures g in s.meta.grants && g.bindingId == b.id && g.enabled && c in g.capabilities
    ensures g.expiresAt.Some? ==> now < g.expiresAt.value
    ensures g.client.uid == client.uid
    ensures g.client.executable.path != "" || g.client.hash != ""
    ensures g.client.executable.path == "" || g.client.executable.path == client.executable.path
    ensures g.client.hash == "" || g.client.hash == client.hash
    ensures client.executable.interpreter ==>
              g.client.acknowledged
              && (g.client.scope == InterpreterWide || (g.client.scope == ScopeUnset && g.client.executable.interpreter))
    ensures !client.executable.interpreter ==>
              g.client.scope == Dedicated || (g.client.scope == ScopeUnset && !g.client.executable.interpreter)
    ensures r in s.vault && r.id == b.secretId && !r.archived && r.policy.Of(c).allow
  {
    hide ValidBinding, ValidIntent, ClientMatches;
    var f := s.meta;
    b := f.bindings[Locate(f.bindings, BindingNamed(name))];
    g := f.grants[Locate(f.grants, Authorizing(b.id, client, c, now))];
    var at := Locate(LoadedAll(s.vault), RecordWithID(b.secretId));
    r := s.vault[at];
    assert b in f.bindings && g in f.grants && r in s.vault;
    assert ValidGrant(g, f.bindings);
    AdmittedFacts(g.client, client);
    LoadedAllows(r, c);
  }

  lemma LoadedAllows(r: SecretRecord, c: Capability)
    requires c.Known()
    ensures Loaded(r).policy.Permits(c) <==> r.policy.Of(c).allow
    ensures Loaded(r).id == r.id && Loaded(r).archived == r.archived
  {
  }

  /** And whoever all of this holds for is let through. */
  lemma LetThrough(s: Store, name: string, client: Client, c: Capability, now: int, b: Binding, g: Grant, r: SecretRecord)
    requires ValidFile(s.meta) && UniqueIDs(s.vault) && c.Known()
    requires b in s.meta.bindings && b.name == name
    requires g in s.meta.grants && g.bindingId == b.id && g.enabled && c in g.capabilities
    requires g.expiresAt.Some? ==> now < g.expiresAt.value
    requires g.client.uid == client.uid
    requires g.client.executable.path == "" || g.client.executable.path == client.executable.path
    requires g.client.hash == "" || g.client.hash == client.hash
    requires if client.executable.interpreter
             then g.client.acknowledged
                  && (g.client.scope == InterpreterWide || (g.client.scope == ScopeUnset && g.client.executable.interpreter))
             else g.client.scope == Dedicated || (g.client.scope == ScopeUnset && !g.client.executable.interpreter)
    requires r in s.vault && r.id == b.secretId && !r.archived && r.policy.Of(c).allow
    ensures PeerAllowed(s, name, client, c, now)
  {
    hide ValidFile, UniqueIDs, DistinctBindings;
    var f := s.meta;
    ValidDistinct(f);
    OnlyBindingNamed(f.bindings, b);
    assert Authorizing(b.id, client, c, now)(g);
    OnlyLoaded(s.vault, r);
    LoadedAllows(r, c);
  }

  lemma OnlyBindingNamed(bs: seq<Binding>, b: Binding)
    requires DistinctBindings(bs) && b in bs
    ensures Locate(bs, BindingNamed(b.name)) >= 0 && bs[Locate(bs, BindingNamed(b.name))] == b
  {
  }

  lemma OnlyLoaded(vault: seq<SecretRecord>, r: SecretRecord)
    requires UniqueIDs(vault) && r in vault
    ensures var at := Locate(LoadedAll(vault), RecordWithID(r.id)); at >= 0 && LoadedAll(vault)[at] == Loaded(r)
  {
    var k :| 0 <= k < |vault| && vault[k] == r;
    var all := LoadedAll(vault);
    assert all[k] == Loaded(r) && all[k] in all;
  }

  // ---------------------------------------------------------------- what is released

  /** Both lists let a key through: a list that is not empty its members, an
      empty one the primary secret only. */
  predicate BothList(b: Binding, g: Grant, key: string) {
    && (key in b.components || (b.components == [] && key == "primary"))
    && (key in g.components || (g.components == [] && key == "primary"))
  }

  /** What a peer is given: the primary secret under its own variable if it is
      listed, and for every variable the last listed part that has one and a
      secret; nothing else. */
  lemma ReleasedParts(s: Store, name: string, client: Client, now: int, cred: Credential, b: Binding, g: Grant, r: SecretRecord)
    requires PeerAllowed(s, name, client, Resolve, now) && Discloses(cred, s, name, client, now)
    requires b == BindingFor(s, name) && g == GrantFor(s, name, client, Resolve, now) && r == RecordFor(s, name)
    ensures cred.binding == name && cred.kind == r.kind
    ensures cred.value == if BothList(b, g, "primary") then r.secret else ""
    ensures cred.envVar == if BothList(b, g, "primary") && r.secret != "" then r.envVarHint else ""
    ensures forall e :: e in cred.components ==>
              exists i :: 0 <= i < |r.extra| && r.extra[i].envVar == e != "" && r.extra[i].secret == cred.components[e] != ""
                          && BothList(b, g, r.extra[i].key)
                          && forall j :: i < j < |r.extra| && r.extra[j].envVar == e && r.extra[j].secret != ""
                                         ==> !BothList(b, g, r.extra[j].key)
    ensures forall part <- r.extra ::
              part.envVar != "" && part.secret != "" && BothList(b, g, part.key) ==> part.envVar in cred.components
  {
    hide PeerAllowed, BindingFor, GrantFor, RecordFor, ListedIn;
    SharedIsBoth(b, g, "primary");
    CollectsListed(cred.components, b, g, r.extra);
  }

  lemma SharedIsBoth(b: Binding, g: Grant, key: string)
    ensures Shared(b, g, key) == BothList(b, g, key)
  {
  }

  lemma CollectsListed(components: map<string, string>, b: Binding, g: Grant, parts: seq<NamedSecret>)
    requires Collects(components, b, g, parts)
    ensures forall e :: e in components ==>
              exists i :: 0 <= i < |parts| && parts[i].envVar == e != "" && parts[i].secret == components[e] != ""
                          && BothList(b, g, parts[i].key)
                          && forall j :: i < j < |parts| && parts[j].envVar == e && parts[j].secret != ""
                                         ==> !BothList(b, g, parts[j].key)
    ensures forall part <- parts ::
              part.envVar != "" && part.secret != "" && BothList(b, g, part.key) ==> part.envVar in components
  {
    hide Shared, BothList;
    forall k | 0 <= k < |parts|
      ensures Shared(b, g, parts[k].key) == BothList(b, g, parts[k].key)
    {
      SharedIsBoth(b, g, parts[k].key);
    }
    forall e | e in components
      ensures exists i :: 0 <= i < |parts| && parts[i].envVar == e != "" && parts[i].secret == components[e] != ""
                          && BothList(b, g, parts[i].key)
                          && forall j :: i < j < |parts| && parts[j].envVar == e && parts[j].secret != ""
                                         ==> !BothList(b, g, parts[j].key)
    {
      var i :| 0 <= i < |parts| && Releasable(b, g, parts[i]) && parts[i].envVar == e && parts[i].secret == components[e]
               && forall j :: i < j < |parts| && Releasable(b, g, parts[j]) ==> parts[j].envVar != e;
    }
    forall part | part in parts && part.envVar != "" && part.secret != "" && BothList(b, g, part.key)
      ensures part.envVar in components
    {
      var i :| 0 <= i < |parts| && parts[i] == part;
      assert Releasable(b, g, parts[i]);
    }
  }

  /** So with an empty list on either side no part leaves but one keyed
      "primary". */
  lemma EmptyListIsPrimaryOnly(s: Store, name: string, client: Client, now: int, cred: Credential)
    requires PeerAllowed(s, name, client, Resolve, now) && Discloses(cred, s, name, client, now)
    requires BindingFor(s, name).components == [] || GrantFor(s, name, client, Resolve, now).components == []
    ensures forall e :: e in cred.components ==>
              exists part <- RecordFor(s, name).extra :: part.key == "primary" && part.envVar == e
  {
    hide Discloses;
    ReleasedParts(s, name, client, now, cred, BindingFor(s, name), GrantFor(s, name, client, Resolve, now),
                  RecordFor(s, name));
  }

  /** A peer that is let through gets something whenever a secret of the record
      is there and listed on both sides. */
  lemma ListedIsReleased(s: Store, name: string, client: Client, now: int, b: Binding, g: Grant, r: SecretRecord)
    requires PeerAllowed(s, name, client, Resolve, now)
    requires b == BindingFor(s, name) && g == GrantFor(s, name, client, Resolve, now) && r == RecordFor(s, name)
    ensures Releases(s, name, client, now)
            <==> || (r.secret != "" && BothList(b, g, "primary"))
                 || exists part <- r.extra :: part.envVar != "" && part.secret != "" && BothList(b, g, part.key)
  {
    hide PeerAllowed, BindingFor, GrantFor, RecordFor;
  }

  /** What a refused peer is told: only that the binding is unavailable when
      there is none of the name, or when the record is gone or has nothing to
      give; that access is denied when no grant on it fits or the policy says
      no; that the vault is locked when it cannot be read. */
  lemma RefusedBecause(s: Store, name: string, client: Client, vaultOk: bool, now: int)
    requires ValidFile(s.meta) && UniqueIDs(s.vault)
    ensures (forall b <- s.meta.bindings :: b.name != name) ==> Refusal(s, name, client, vaultOk, now) == BindingUnavailable
    ensures forall b <- s.meta.bindings :: b.name == name ==>
              var fits := exists g <- s.meta.grants :: Authorizes(g, b.id, client, Resolve, now);
              Refusal(s, name, client, vaultOk, now)
              == if !fits then AccessDenied
                 else if !vaultOk then VaultLocked
                 else if exists r <- s.vault :: r.id == b.secretId && !r.archived && !r.policy.resolve.allow then AccessDenied
                 else BindingUnavailable
  {
    hide ValidGrant, ValidBinding, ValidIntent, Authorizes;
    forall b | b in s.meta.bindings && b.name == name
      ensures s.meta.bindings[Locate(s.meta.bindings, BindingNamed(name))] == b && Locate(s.meta.bindings, BindingNamed(name)) >= 0
    {
      OnlyBindingNamed(s.meta.bindings, b);
    }
    var at := Locate(s.meta.bindings, BindingNamed(name));
    if at >= 0 {
      var b := s.meta.bindings[at];
      assert b in s.meta.bindings;
      var g := Locate(s.meta.grants, Authorizing(b.id, client, Resolve, now));
      assert g >= 0 ==> s.meta.grants[g] in s.meta.grants;
      UsableWhen(s.vault, b.secretId);
    }
  }

  lemma UsableWhen(vault: seq<SecretRecord>, sid: string)
    requires UniqueIDs(vault)
    ensures Grantable(LoadedAll(vault), sid) <==> exists r <- vault :: r.id == sid && !r.archived
    ensures Usable(LoadedAll(vault), sid, Resolve) <==> exists r <- vault :: r.id == sid && !r.archived && r.policy.resolve.allow
  {
    var all := LoadedAll(vault);
    var at := Locate(all, RecordWithID(sid));
    if at >= 0 {
      LoadedAllows(vault[at], Resolve);
      assert vault[at] in vault;
    }
    forall r | r in vault && r.id == sid
      ensures at >= 0 && vault[at] == r
    {
      OnlyLoaded(vault, r);
      var k :| 0 <= k < |vault| && vault[k] == r;
    }
  }

  /** A rotation that names a binding and a value is carried out exactly for a
      peer that is let through to rotate; then the new value is on the record
      the binding names. */
  lemma RotationExactly(s: Store, name: string, value: string, client: Client, io: IO)
    requires AllStored(s.vault) && UniqueIDs(s.vault)
    ensures RotateRun(s, name, value, client, io).writes != []
            <==> && name != "" && value != "" && ValidFile(Opened(s.meta)) && io.vaultOk
                 && PeerAllowed(s.(meta := Opened(s.meta)), name, client, Rotate, io.now)
    ensures RotateRun(s, name, value, client, io).writes != [] ==>
              var after := Final(s, RotateRun(s, name, value, client, io));
              exists k, b :: 0 <= k < |after.vault| == |s.vault| && b in s.meta.bindings && b.name == name
                             && after.vault[k] == s.vault[k].(secret := value, updatedAt := io.now, rotatedAt := Some(io.now))
                             && s.vault[k].id == b.secretId
  {
    hide ValidFile, Usable, IsStored;
    if RotateRun(s, name, value, client, io).writes != [] {
      var b := BindingFor(s.(meta := Opened(s.meta)), name);
      assert b in s.meta.bindings;
      UsableRecord(s.vault, b.secretId);
      var k :| 0 <= k < |s.vault| && s.vault[k].id == b.secretId;
      assert s.vault[k] in s.vault;
      RotatedRecord(s.vault[k], b.secretId, value, io.now);
    }
  }

  lemma UsableRecord(vault: seq<SecretRecord>, sid: string)
    requires Usable(LoadedAll(vault), sid, Rotate)
    ensures exists k :: 0 <= k < |vault| && vault[k].id == sid
  {
    var at := Locate(LoadedAll(vault), RecordWithID(sid));
    assert vault[at].id == sid;
  }
}
