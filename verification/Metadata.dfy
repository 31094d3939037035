/** The broker's metadata file: bindings, grants and pending approval intents,
    its validation, its lookups and its in-place edits. */
module Metadata {
  import opened Lists
  import opened BrokerPolicy

  datatype IdentityScope = ScopeUnset | Dedicated | InterpreterWide | OtherScope(text: string)

  /** A path together with whether it names a shared interpreter. */
  datatype Executable = Executable(path: string, interpreter: bool)

  datatype Client = Client(uid: int, executable: Executable, hash: string, scope: IdentityScope, acknowledged: bool)

  datatype Binding = Binding(id: string, name: string, secretId: string, components: seq<string>,
                             description: string, createdAt: int, updatedAt: int)

  datatype Grant = Grant(id: string, name: string, bindingId: string, client: Client, capabilities: seq<Capability>,
                         components: seq<string>, enabled: bool, createdAt: int, expiresAt: Option<int>)

  /** `createdAt == 0` is the zero time. */
  datatype Intent = Intent(grantId: string, bindingId: string, secretId: string, capabilities: seq<Capability>,
                           priorAllowResolve: bool, priorAllowRotate: bool,
                           priorResolveSource: Source, priorRotateSource: Source,
                           priorKnown: bool, adminRevision: nat, createdAt: int)

  datatype MetaFile = MetaFile(version: int, revision: nat, bindings: seq<Binding>, grants: seq<Grant>,
                               pending: seq<Intent>)

  const EMPTY_FILE := MetaFile(1, 0, [], [], [])

  // ---------------------------------------------------------------- validity

  predicate NameStart(c: char) {
    'A' <= c <= 'Z' || 'a' <= c <= 'z' || '0' <= c <= '9'
  }

  predicate NameChar(c: char) {
    NameStart(c) || c == '.' || c == '_' || c == '/' || c == '-'
  }

  predicate ValidName(name: string) {
    && 1 <= |name| <= 128
    && NameStart(name[0])
    && (forall i :: 0 < i < |name| ==> NameChar(name[i]))
    && (forall i :: 0 <= i < |name| - 1 ==> !(name[i] == '.' && name[i + 1] == '.'))
  }

  predicate ValidBinding(b: Binding) {
    b.id != "" && b.secretId != "" && ValidName(b.name)
  }

  predicate ValidClient(c: Client) {
    && c.uid >= 0
    && (c.executable.path != "" || c.hash != "")
    && !c.scope.OtherScope?
    && (c.scope.InterpreterWide? ==> c.acknowledged && c.executable.interpreter)
  }

  predicate HasBinding(bs: seq<Binding>, id: string) {
    exists b <- bs :: b.id == id
  }

  predicate ValidGrant(g: Grant, bs: seq<Binding>) {
    g.id != "" && g.name != "" && HasBinding(bs, g.bindingId) && ValidClient(g.client) && AllKnown(g.capabilities)
  }

  predicate ValidSource(s: Source) {
    !s.Other?
  }

  predicate ValidIntent(i: Intent, bs: seq<Binding>) {
    && i.grantId != "" && i.secretId != "" && HasBinding(bs, i.bindingId) && i.createdAt != 0
    && i.capabilities != [] && AllKnown(i.capabilities)
    && (forall j, k :: 0 <= j < k < |i.capabilities| ==> i.capabilities[j] != i.capabilities[k])
    && ValidSource(i.priorResolveSource) && ValidSource(i.priorRotateSource)
  }

  predicate DistinctBindings(bs: seq<Binding>) {
    forall i, j :: 0 <= i < j < |bs| ==> bs[i].id != bs[j].id && bs[i].name != bs[j].name
  }

  predicate DistinctGrants(gs: seq<Grant>) {
    forall i, j :: 0 <= i < j < |gs| ==> gs[i].id != gs[j].id
  }

  predicate DistinctIntents(ps: seq<Intent>) {
    forall i, j :: 0 <= i < j < |ps| ==> ps[i].grantId != ps[j].grantId
  }

  /** What a metadata file must satisfy to be loaded or saved. */
  predicate ValidFile(f: MetaFile) {
    && f.version == 1
    && (forall b <- f.bindings :: ValidBinding(b)) && DistinctBindings(f.bindings)
    && (forall g <- f.grants :: ValidGrant(g, f.bindings)) && DistinctGrants(f.grants)
    && (forall i <- f.pending :: ValidIntent(i, f.bindings)) && DistinctIntents(f.pending)
  }

  // ---------------------------------------------------------------- meaning

  predicate BoundTo(bs: seq<Binding>, bindingId: string, secretId: string) {
    exists b <- bs :: b.id == bindingId && b.secretId == secretId
  }

  predicate Expired(g: Grant, now: int) {
    g.expiresAt.Some? && g.expiresAt.value <= now
  }

  /** Grant `g` makes secret `sid` need capability `c` at time `now`. */
  predicate GrantNeeds(g: Grant, bs: seq<Binding>, now: int, sid: string, c: Capability) {
    g.enabled && !Expired(g, now) && c in g.capabilities && BoundTo(bs, g.bindingId, sid)
  }

  predicate Needed(f: MetaFile, now: int, sid: string, c: Capability) {
    exists g <- f.grants :: GrantNeeds(g, f.bindings, now, sid, c)
  }

  function NeedOf(f: MetaFile, now: int, sid: string): Need {
    Need(Needed(f, now, sid, Resolve), Needed(f, now, sid, Rotate))
  }

  function NeedIn(needs: map<string, Need>, sid: string): Need {
    if sid in needs then needs[sid] else NO_NEED
  }

  ghost predicate Tallies(needs: map<string, Need>, f: MetaFile, now: int) {
    forall sid :: NeedIn(needs, sid) == NeedOf(f, now, sid)
  }

  lemma NeededAppend(f: MetaFile, gs: seq<Grant>, g: Grant, now: int, sid: string, c: Capability)
    ensures Needed(f.(grants := gs + [g]), now, sid, c)
         == (Needed(f.(grants := gs), now, sid, c) || GrantNeeds(g, f.bindings, now, sid, c))
  {
  }

  lemma TallySkip(needs: map<string, Need>, f: MetaFile, gs: seq<Grant>, g: Grant, now: int)
    requires Tallies(needs, f.(grants := gs), now)
    requires g.enabled && !Expired(g, now) ==> forall sid :: !BoundTo(f.bindings, g.bindingId, sid)
    ensures Tallies(needs, f.(grants := gs + [g]), now)
  {
  }

  lemma TallyAdd(needs: map<string, Need>, f: MetaFile, gs: seq<Grant>, g: Grant, now: int, target: string)
    requires Tallies(needs, f.(grants := gs), now)
    requires g.enabled && !Expired(g, now) && forall sid :: BoundTo(f.bindings, g.bindingId, sid) <==> sid == target
    ensures Tallies(needs[target := Need(NeedIn(needs, target).resolve || Resolve in g.capabilities,
                                         NeedIn(needs, target).rotate || Rotate in g.capabilities)],
                    f.(grants := gs + [g]), now)
  {
    forall sid
      ensures NeedOf(f.(grants := gs + [g]), now, sid)
           == if sid == target then Need(NeedIn(needs, target).resolve || Resolve in g.capabilities,
                                         NeedIn(needs, target).rotate || Rotate in g.capabilities)
              else NeedIn(needs, sid)
    {
      NeededAppend(f, gs, g, now, sid, Resolve);
      NeededAppend(f, gs, g, now, sid, Rotate);
    }
  }

  /** The baseline one intent stands for; a legacy intent holds only booleans. */
  function IntentBaseline(i: Intent): Baseline {
    if i.priorKnown then
      Baseline(i.priorAllowResolve || i.priorResolveSource == Administrative,
               i.priorAllowRotate || i.priorRotateSource == Administrative,
               i.priorResolveSource, i.priorRotateSource, i.adminRevision)
    else
      Baseline(i.priorAllowResolve, i.priorAllowRotate,
               if i.priorAllowResolve then Administrative else NoSource,
               if i.priorAllowRotate then Administrative else NoSource, 0)
  }

  function Merged(prior: Option<Baseline>, next: Baseline): Baseline {
    if prior.None? then next
    else Baseline(next.resolve || prior.value.resolve, next.rotate || prior.value.rotate,
                  if prior.value.resolve then Administrative else next.resolveSource,
                  if prior.value.rotate then Administrative else next.rotateSource, next.adminRevision)
  }

  /** Baselines of the intents that name `sid`, merged in file order. */
  function BaselineOf(ps: seq<Intent>, sid: string): Option<Baseline> {
    if ps == [] then None
    else
      var last := ps[|ps| - 1];
      var before := BaselineOf(ps[..|ps| - 1], sid);
      if last.secretId == sid then Some(Merged(before, IntentBaseline(last))) else before
  }

  // ---------------------------------------------------------------- lookups

  predicate ClientMatches(granted: Client, actual: Client) {
    && granted.uid == actual.uid
    && (granted.executable.path != "" ==> granted.executable.path == actual.executable.path)
    && (granted.hash != "" ==> granted.hash == actual.hash)
    && var scope := if granted.scope.ScopeUnset?
                    then (if granted.executable.interpreter then InterpreterWide else Dedicated) else granted.scope;
       if actual.executable.interpreter then scope.InterpreterWide? && granted.acknowledged
       else scope.Dedicated?
  }

  /** Grant `g` lets `client` use capability `c` through binding `bindingId`. */
  predicate Authorizes(g: Grant, bindingId: string, client: Client, c: Capability, now: int) {
    g.bindingId == bindingId && g.enabled && c in g.capabilities && !Expired(g, now) && ClientMatches(g.client, client)
  }

  function BindingNamed(name: string): Binding -> bool { (b: Binding) => b.name == name }

  function BindingWithID(id: string): Binding -> bool { (b: Binding) => b.id == id }

  function GrantWithID(id: string): Grant -> bool { (g: Grant) => g.id == id }

  function IntentFor(id: string): Intent -> bool { (i: Intent) => i.grantId == id }

  function Authorizing(bindingId: string, client: Client, c: Capability, now: int): Grant -> bool {
    (g: Grant) => Authorizes(g, bindingId, client, c, now)
  }

  /** Lookup by name first and by generated id only if no name matches. */
  function LocateBinding(bs: seq<Binding>, value: string): int {
    var named := Locate(bs, BindingNamed(value));
    if named >= 0 then named else Locate(bs, BindingWithID(value))
  }

  // ---------------------------------------------------------------- edits

  function OtherGrant(id: string): Grant -> bool { (g: Grant) => g.id != id }

  function OtherIntent(id: string): Intent -> bool { (i: Intent) => i.grantId != id }

  function OtherBinding(id: string): Binding -> bool { (b: Binding) => b.id != id }

  function GrantElsewhere(bindingId: string): Grant -> bool { (g: Grant) => g.bindingId != bindingId }

  function IntentElsewhere(bindingId: string): Intent -> bool { (i: Intent) => i.bindingId != bindingId }

  function Lapsed(now: int): Grant -> bool { (g: Grant) => g.enabled && Expired(g, now) }

  function OnBinding(bindingId: string): Grant -> bool { (g: Grant) => g.bindingId == bindingId }

  /** Disabled and made before the cut-off. */
  function Stale(cutoff: int): Grant -> bool { (g: Grant) => !g.enabled && g.createdAt < cutoff }

  function StaleIDs(gs: seq<Grant>, cutoff: int): set<string> {
    set g | g in gs && Stale(cutoff)(g) :: g.id
  }

  function GrantOutside(ids: set<string>): Grant -> bool { (g: Grant) => g.id !in ids }

  function IntentOutside(ids: set<string>): Intent -> bool { (i: Intent) => i.grantId !in ids }

  /** The file without a set of grants and their intents. */
  function Without(m: MetaFile, ids: set<string>): MetaFile {
    m.(grants := Filter(m.grants, GrantOutside(ids)), pending := Filter(m.pending, IntentOutside(ids)))
  }

  /** Every grant for which `off` holds, disabled; the others as they were. */
  function Disabled(gs: seq<Grant>, off: Grant -> bool): (r: seq<Grant>)
    ensures |r| == |gs|
    ensures forall i :: 0 <= i < |gs| ==> r[i] == if off(gs[i]) then gs[i].(enabled := false) else gs[i]
  {
    seq(|gs|, i requires 0 <= i < |gs| => if off(gs[i]) then gs[i].(enabled := false) else gs[i])
  }

  /** The records that bindings of the grants `off` selects point at. */
  function TargetsOf(f: MetaFile, off: Grant -> bool): set<string> {
    set b | b in f.bindings && (exists g <- f.grants :: off(g) && g.bindingId == b.id) :: b.secretId
  }

  /** A lifecycle callback's outcome: the edited file and the records whose
      policy must be reconciled. */
  datatype Change = Change(file: MetaFile, affected: set<string>)

  function RevokeChange(f: MetaFile, id: string): Option<Change> {
    if Locate(f.grants, GrantWithID(id)) < 0 then None
    else Some(Change(f.(grants := Disabled(f.grants, GrantWithID(id))), TargetsOf(f, GrantWithID(id))))
  }

  function ExpireChange(f: MetaFile, now: int): Option<Change> {
    Some(Change(f.(grants := Disabled(f.grants, Lapsed(now))), TargetsOf(f, Lapsed(now))))
  }

  function RebindChange(f: MetaFile, value: string, newSecret: string, now: int): Option<Change> {
    var at := LocateBinding(f.bindings, value);
    if newSecret == "" || at < 0 then None
    else
      var b := f.bindings[at];
      Some(Change(f.(bindings := f.bindings[at := b.(secretId := newSecret, updatedAt := now)],
                     grants := Disabled(f.grants, OnBinding(b.id))), {b.secretId, newSecret}))
  }

  function DeleteChange(f: MetaFile, value: string): Option<Change> {
    var at := LocateBinding(f.bindings, value);
    if at < 0 then None
    else
      var b := f.bindings[at];
      Some(Change(f.(bindings := Filter(f.bindings, OtherBinding(b.id)),
                     grants := Filter(f.grants, GrantElsewhere(b.id)),
                     pending := Filter(f.pending, IntentElsewhere(b.id))), {b.secretId}))
  }

  function Saved(f: MetaFile): MetaFile {
    f.(version := if f.version == 0 then 1 else f.version, revision := (f.revision + 1) % UINT64_RANGE)
  }

  /** The metadata as loaded into memory, which callbacks change in place. */
  class BrokerFile {
    var version: int
    var revision: nat
    var bindings: seq<Binding>
    var grants: seq<Grant>
    var pending: seq<Intent>

    function Value(): MetaFile
      reads this
    {
      MetaFile(version, revision, bindings, grants, pending)
    }

    constructor (f: MetaFile)
      ensures Value() == f
    {
      version, revision := f.version, f.revision;
      bindings, grants, pending := f.bindings, f.grants, f.pending;
    }

    method FindBinding(name: string) returns (i: int)
      ensures i == Locate(bindings, BindingNamed(name))
    {
      i := 0;
      while i < |bindings|
        invariant 0 <= i <= |bindings|
        invariant forall j :: 0 <= j < i ==> bindings[j].name != name
      {
        if bindings[i].name == name {
          LocateFirst(bindings, BindingNamed(name), i);
          return;
        }
        i := i + 1;
      }
      i := -1;
    }

    method FindBindingByID(id: string) returns (i: int)
      ensures i == Locate(bindings, BindingWithID(id))
    {
      i := 0;
      while i < |bindings|
        invariant 0 <= i <= |bindings|
        invariant forall j :: 0 <= j < i ==> bindings[j].id != id
      {
        if bindings[i].id == id {
          LocateFirst(bindings, BindingWithID(id), i);
          return;
        }
        i := i + 1;
      }
      i := -1;
    }

    method FindGrantByID(id: string) returns (i: int)
      ensures i == Locate(grants, GrantWithID(id))
    {
      i := 0;
      while i < |grants|
        invariant 0 <= i <= |grants|
        invariant forall j :: 0 <= j < i ==> grants[j].id != id
      {
        if grants[i].id == id {
          LocateFirst(grants, GrantWithID(id), i);
          return;
        }
        i := i + 1;
      }
      i := -1;
    }

    method FindIntentByGrantID(id: string) returns (i: int)
      ensures i == Locate(pending, IntentFor(id))
    {
      i := 0;
      while i < |pending|
        invariant 0 <= i <= |pending|
        invariant forall j :: 0 <= j < i ==> pending[j].grantId != id
      {
        if pending[i].grantId == id {
          LocateFirst(pending, IntentFor(id), i);
          return;
        }
        i := i + 1;
      }
      i := -1;
    }

    method FindBindingByNameOrID(value: string) returns (i: int)
      ensures i == LocateBinding(bindings, value)
    {
      i := FindBinding(value);
      if i < 0 {
        i := FindBindingByID(value);
      }
    }

    /** The first grant that authorises the client, or -1. */
    method FindGrant(bindingId: string, client: Client, capability: Capability, now: int) returns (i: int)
      ensures i == Locate(grants, Authorizing(bindingId, client, capability, now))
    {
      i := 0;
      while i < |grants|
        invariant 0 <= i <= |grants|
        invariant forall j :: 0 <= j < i ==> !Authorizes(grants[j], bindingId, client, capability, now)
      {
        var g := grants[i];
        if g.bindingId != bindingId || !g.enabled || capability !in g.capabilities {
          i := i + 1;
          continue;
        }
        if g.expiresAt.Some? && !(now < g.expiresAt.value) {
          i := i + 1;
          continue;
        }
        var matches := Matches(g.client, client);
        if !matches {
          i := i + 1;
          continue;
        }
        LocateFirst(grants, Authorizing(bindingId, client, capability, now), i);
        return;
      }
      i := -1;
    }

    static method Matches(granted: Client, actual: Client) returns (ok: bool)
      ensures ok <==> ClientMatches(granted, actual)
    {
      if granted.uid != actual.uid {
        return false;
      }
      var pathOK := granted.executable.path != "" && granted.executable.path == actual.executable.path;
      var hashOK := granted.hash != "" && granted.hash == actual.hash;
      if granted.executable.path != "" && granted.hash != "" {
        if !pathOK || !hashOK {
          return false;
        }
      }
      if granted.executable.path != "" && !pathOK {
        return false;
      }
      if granted.hash != "" && !hashOK {
        return false;
      }
      var scope := granted.scope;
      if scope == ScopeUnset {
        scope := if granted.executable.interpreter then InterpreterWide else Dedicated;
      }
      if actual.executable.interpreter {
        return scope == InterpreterWide && granted.acknowledged;
      }
      return scope == Dedicated;
    }

    method RemoveGrant(id: string)
      modifies this`grants
      ensures grants == Filter(old(grants), OtherGrant(id))
    {
      var kept := [];
      for i := 0 to |grants|
        invariant grants == old(grants) && kept == Filter(grants[..i], OtherGrant(id))
      {
        FilterStep(grants, OtherGrant(id), i);
        if grants[i].id != id {
          kept := kept + [grants[i]];
        }
      }
      assert grants[..|grants|] == grants;
      grants := kept;
    }

    /** Drops stale disabled grants and their intents, without the vault. */
    method RemoveStale(cutoff: int)
      modifies this`grants, this`pending
      ensures Value() == Without(old(Value()), StaleIDs(old(grants), cutoff))
    {
      var stale := {};
      for i := 0 to |grants|
        invariant unchanged(this) && stale == StaleIDs(grants[..i], cutoff)
      {
        StaleStep(grants, cutoff, i);
        if !grants[i].enabled && grants[i].createdAt < cutoff {
          stale := stale + {grants[i].id};
        }
      }
      assert grants[..|grants|] == grants;
      var kept := [];
      for i := 0 to |grants|
        invariant unchanged(this) && kept == Filter(grants[..i], GrantOutside(stale))
      {
        FilterStep(grants, GrantOutside(stale), i);
        if grants[i].id in stale {
          continue;
        }
        kept := kept + [grants[i]];
      }
      assert grants[..|grants|] == grants;
      var intents := [];
      for i := 0 to |pending|
        invariant unchanged(this) && intents == Filter(pending[..i], IntentOutside(stale))
      {
        FilterStep(pending, IntentOutside(stale), i);
        if pending[i].grantId !in stale {
          intents := intents + [pending[i]];
        }
      }
      assert pending[..|pending|] == pending;
      grants, pending := kept, intents;
    }

    method RemoveIntent(id: string)
      modifies this`pending
      ensures pending == Filter(old(pending), OtherIntent(id))
    {
      var kept := [];
      for i := 0 to |pending|
        invariant pending == old(pending) && kept == Filter(pending[..i], OtherIntent(id))
      {
        FilterStep(pending, OtherIntent(id), i);
        if pending[i].grantId != id {
          kept := kept + [pending[i]];
        }
      }
      assert pending[..|pending|] == pending;
      pending := kept;
    }

    // ------------------------------------------------------------ validation

    method ValidateBindings() returns (ok: bool, ids: set<string>)
      ensures ok <==> (forall b <- bindings :: ValidBinding(b)) && DistinctBindings(bindings)
      ensures ok ==> forall id :: id in ids <==> HasBinding(bindings, id)
    {
      ids := {};
      var names: set<string> := {};
      for i := 0 to |bindings|
        invariant forall j :: 0 <= j < i ==> ValidBinding(bindings[j])
        invariant DistinctBindings(bindings[..i])
        invariant forall id :: id in ids <==> exists j :: 0 <= j < i && bindings[j].id == id
        invariant forall name :: name in names <==> exists j :: 0 <= j < i && bindings[j].name == name
      {
        var b := bindings[i];
        if !ValidBinding(b) || b.id in ids || b.name in names {
          assert b in bindings;
          return false, ids;
        }
        ids, names := ids + {b.id}, names + {b.name};
      }
      assert bindings[..|bindings|] == bindings;
      ok := true;
    }

    method ValidateGrants(ids: set<string>) returns (ok: bool)
      requires forall id :: id in ids <==> HasBinding(bindings, id)
      ensures ok <==> (forall g <- grants :: ValidGrant(g, bindings)) && DistinctGrants(grants)
    {
      var seen: set<string> := {};
      for i := 0 to |grants|
        invariant forall j :: 0 <= j < i ==> ValidGrant(grants[j], bindings)
        invariant DistinctGrants(grants[..i])
        invariant forall id :: id in seen <==> exists j :: 0 <= j < i && grants[j].id == id
      {
        var g := grants[i];
        assert g in grants;
        if g.id == "" || g.name == "" || g.bindingId !in ids || g.id in seen || !ValidClient(g.client)
           || !AllKnown(g.capabilities) {
          return false;
        }
        seen := seen + {g.id};
      }
      assert grants[..|grants|] == grants;
      ok := true;
    }

    method ValidateIntents(ids: set<string>) returns (ok: bool)
      requires forall id :: id in ids <==> HasBinding(bindings, id)
      ensures ok <==> (forall p <- pending :: ValidIntent(p, bindings)) && DistinctIntents(pending)
    {
      var seen: set<string> := {};
      for i := 0 to |pending|
        invariant forall j :: 0 <= j < i ==> ValidIntent(pending[j], bindings)
        invariant DistinctIntents(pending[..i])
        invariant forall id :: id in seen <==> exists j :: 0 <= j < i && pending[j].grantId == id
      {
        var p := pending[i];
        assert p in pending;
        if p.grantId == "" || p.secretId == "" || p.bindingId !in ids || p.createdAt == 0 || p.grantId in seen
           || p.capabilities == [] {
          return false;
        }
        seen := seen + {p.grantId};
        var distinct := DistinctKnown(p.capabilities);
        if !distinct || !ValidSource(p.priorResolveSource) || !ValidSource(p.priorRotateSource) {
          return false;
        }
      }
      assert pending[..|pending|] == pending;
      ok := true;
    }

    static method DistinctKnown(caps: seq<Capability>) returns (ok: bool)
      ensures ok <==> AllKnown(caps) && forall j, k :: 0 <= j < k < |caps| ==> caps[j] != caps[k]
    {
      var seen: set<Capability> := {};
      for i := 0 to |caps|
        invariant forall c :: c in seen <==> exists j :: 0 <= j < i && caps[j] == c
        invariant forall j :: 0 <= j < i ==> caps[j].Known()
        invariant forall j, k :: 0 <= j < k < i ==> caps[j] != caps[k]
      {
        assert caps[i] in caps;
        if !caps[i].Known() || caps[i] in seen {
          return false;
        }
        seen := seen + {caps[i]};
      }
      ok := true;
    }

    method Validate() returns (ok: bool)
      ensures ok <==> ValidFile(Value())
    {
      if version != 1 {
        return false;
      }
      var ids;
      ok, ids := ValidateBindings();
      if ok {
        ok := ValidateGrants(ids);
      }
      if ok {
        ok := ValidateIntents(ids);
      }
    }

    // ------------------------------------------------------------ summaries

    /** What the enabled, unexpired grants require, per record. */
    method RequiredBrokerPolicies(now: int) returns (needs: map<string, Need>)
      requires DistinctBindings(bindings) && forall b <- bindings :: b.secretId != ""
      ensures forall sid :: NeedIn(needs, sid) == NeedOf(Value(), now, sid)
    {
      var secretByBinding: map<string, string> := map[];
      for i := 0 to |bindings|
        invariant forall id :: id in secretByBinding ==> exists j :: 0 <= j < i && bindings[j].id == id
        invariant forall j :: 0 <= j < i ==> bindings[j].id in secretByBinding
                                             && secretByBinding[bindings[j].id] == bindings[j].secretId
      {
        secretByBinding := secretByBinding[bindings[i].id := bindings[i].secretId];
      }
      assert forall id, sid :: BoundTo(bindings, id, sid) <==> id in secretByBinding && secretByBinding[id] == sid;
      needs := map[];
      for i := 0 to |grants|
        invariant Tallies(needs, Value().(grants := grants[..i]), now)
      {
        var g := grants[i];
        assert grants[..i + 1] == grants[..i] + [g];
        if !g.enabled || (g.expiresAt.Some? && !(now < g.expiresAt.value)) {
          TallySkip(needs, Value(), grants[..i], g, now);
          continue;
        }
        var secretID := if g.bindingId in secretByBinding then secretByBinding[g.bindingId] else "";
        if secretID == "" {
          TallySkip(needs, Value(), grants[..i], g, now);
          continue;
        }
        var need := AddCapabilities(NeedIn(needs, secretID), g.capabilities);
        TallyAdd(needs, Value(), grants[..i], g, now, secretID);
        needs := needs[secretID := need];
      }
      assert grants[..|grants|] == grants;
    }

    static method AddCapabilities(need: Need, caps: seq<Capability>) returns (r: Need)
      ensures r == Need(need.resolve || Resolve in caps, need.rotate || Rotate in caps)
    {
      r := need;
      for i := 0 to |caps|
        invariant r == Need(need.resolve || Resolve in caps[..i], need.rotate || Rotate in caps[..i])
      {
        match caps[i] {
          case Resolve => r := r.(resolve := true);
          case Rotate => r := r.(rotate := true);
          case Unknown(_) =>
        }
      }
      assert caps[..|caps|] == caps;
    }

    /** The merged baseline of every record some intent names. */
    method ApprovalBaselines() returns (out: map<string, Baseline>)
      ensures forall sid :: (if sid in out then Some(out[sid]) else None) == BaselineOf(pending, sid)
    {
      out := map[];
      for i := 0 to |pending|
        invariant forall sid :: (if sid in out then Some(out[sid]) else None) == BaselineOf(pending[..i], sid)
      {
        var intent := pending[i];
        assert pending[..i + 1][..i] == pending[..i];
        var baseline := IntentBaseline(intent);
        if intent.secretId in out {
          var prior := out[intent.secretId];
          baseline := baseline.(resolve := baseline.resolve || prior.resolve, rotate := baseline.rotate || prior.rotate);
          if prior.resolve {
            baseline := baseline.(resolveSource := Administrative);
          }
          if prior.rotate {
            baseline := baseline.(rotateSource := Administrative);
          }
        }
        out := out[intent.secretId := baseline];
      }
      assert pending[..|pending|] == pending;
    }

    // ------------------------------------------------------------ lifecycle callbacks

    ghost predicate Outcome(c: Option<Change>, before: MetaFile, r: Option<set<string>>)
      reads this
    {
      match c
      case None => r.None? && Value() == before
      case Some(change) => r == Some(change.affected) && Value() == change.file
    }

    method Revoke(id: string) returns (r: Option<set<string>>)
      requires ValidFile(Value())
      modifies this`grants
      ensures Outcome(RevokeChange(old(Value()), id), old(Value()), r)
    {
      var at := FindGrantByID(id);
      if at < 0 {
        return None;
      }
      var affected: set<string> := {};
      var b := FindBindingByID(grants[at].bindingId);
      if b >= 0 {
        affected := {bindings[b].secretId};
      }
      OneTarget(Value(), GrantWithID(id), at, b);
      grants := grants[at := grants[at].(enabled := false)];
      return Some(affected);
    }

    method DisableExpired(now: int) returns (r: Option<set<string>>)
      requires ValidFile(Value())
      modifies this`grants
      ensures Outcome(ExpireChange(old(Value()), now), old(Value()), r)
    {
      ghost var before := Value();
      var affected: set<string> := {};
      for i := 0 to |grants|
        invariant |grants| == |before.grants|
        invariant forall j :: 0 <= j < |grants|
                    ==> grants[j] == if j < i && Lapsed(now)(before.grants[j])
                                     then before.grants[j].(enabled := false) else before.grants[j]
        invariant forall sid :: sid in affected
                    <==> exists j :: 0 <= j < i && Lapsed(now)(before.grants[j])
                                     && BoundTo(bindings, before.grants[j].bindingId, sid)
      {
        if !grants[i].enabled || grants[i].expiresAt.None? || now < grants[i].expiresAt.value {
          continue;
        }
        var b := FindBindingByID(grants[i].bindingId);
        BoundOnce(bindings, grants[i].bindingId, b);
        if b >= 0 {
          affected := affected + {bindings[b].secretId};
        }
        grants := grants[i := grants[i].(enabled := false)];
      }
      assert affected == TargetsOf(before, Lapsed(now));
      return Some(affected);
    }

    method Rebind(value: string, newSecret: string, now: int) returns (r: Option<set<string>>)
      modifies this`grants, this`bindings
      ensures Outcome(RebindChange(old(Value()), value, newSecret, now), old(Value()), r)
    {
      if newSecret == "" {
        return None;
      }
      var at := FindBindingByNameOrID(value);
      if at < 0 {
        return None;
      }
      ghost var before := Value();
      var affected := {bindings[at].secretId, newSecret};
      bindings := bindings[at := bindings[at].(secretId := newSecret, updatedAt := now)];
      var id := bindings[at].id;
      for i := 0 to |grants|
        invariant |grants| == |before.grants| && id == before.bindings[at].id
        invariant bindings == before.bindings[at := before.bindings[at].(secretId := newSecret, updatedAt := now)]
        invariant forall j :: 0 <= j < |grants|
                    ==> grants[j] == if j < i && OnBinding(id)(before.grants[j])
                                     then before.grants[j].(enabled := false) else before.grants[j]
      {
        if grants[i].bindingId == id {
          grants := grants[i := grants[i].(enabled := false)];
        }
      }
      return Some(affected);
    }

    method Delete(value: string) returns (r: Option<set<string>>)
      modifies this`grants, this`bindings, this`pending
      ensures Outcome(DeleteChange(old(Value()), value), old(Value()), r)
    {
      var at := FindBindingByNameOrID(value);
      if at < 0 {
        return None;
      }
      var id := bindings[at].id;
      var affected := {bindings[at].secretId};
      var keptBindings := [];
      for i := 0 to |bindings|
        invariant unchanged(this) && keptBindings == Filter(bindings[..i], OtherBinding(id))
      {
        FilterStep(bindings, OtherBinding(id), i);
        if bindings[i].id != id {
          keptBindings := keptBindings + [bindings[i]];
        }
      }
      assert bindings[..|bindings|] == bindings;
      var keptGrants := [];
      for i := 0 to |grants|
        invariant unchanged(this) && keptGrants == Filter(grants[..i], GrantElsewhere(id))
      {
        FilterStep(grants, GrantElsewhere(id), i);
        if grants[i].bindingId != id {
          keptGrants := keptGrants + [grants[i]];
        }
      }
      assert grants[..|grants|] == grants;
      var keptIntents := [];
      for i := 0 to |pending|
        invariant unchanged(this) && keptIntents == Filter(pending[..i], IntentElsewhere(id))
      {
        FilterStep(pending, IntentElsewhere(id), i);
        if pending[i].bindingId != id {
          keptIntents := keptIntents + [pending[i]];
        }
      }
      assert pending[..|pending|] == pending;
      bindings, grants, pending := keptBindings, keptGrants, keptIntents;
      return Some(affected);
    }
  }

  lemma StaleStep(gs: seq<Grant>, cutoff: int, i: nat)
    requires i < |gs|
    ensures StaleIDs(gs[..i + 1], cutoff) == StaleIDs(gs[..i], cutoff) + if Stale(cutoff)(gs[i]) then {gs[i].id} else {}
  {
    assert gs[..i + 1] == gs[..i] + [gs[i]];
  }

  lemma BoundOnce(bs: seq<Binding>, id: string, at: int)
    requires DistinctBindings(bs) && at == Locate(bs, BindingWithID(id))
    ensures at < 0 ==> forall sid :: !BoundTo(bs, id, sid)
    ensures at >= 0 ==> forall sid :: BoundTo(bs, id, sid) <==> sid == bs[at].secretId
  {
  }

  lemma OneTarget(f: MetaFile, off: Grant -> bool, at: nat, b: int)
    requires ValidFile(f) && at < |f.grants| && off == GrantWithID(f.grants[at].id)
    requires b == Locate(f.bindings, BindingWithID(f.grants[at].bindingId))
    ensures TargetsOf(f, off) == if b >= 0 then {f.bindings[b].secretId} else {}
    ensures f.grants[at := f.grants[at].(enabled := false)] == Disabled(f.grants, off)
  {
  }
}
