/** The broker half of a vault record's policy: who allowed a capability, and
    the rules that normalise, grant and reconcile it.

    Every rule treats the two capabilities alike, so the specification works on
    one `Gate` at a time; `SecretPolicy` is the record the program updates
    field by field. */
module BrokerPolicy {

  const UINT64_RANGE := 0x1_0000_0000_0000_0000

  datatype Capability = Resolve | Rotate | Unknown(name: string)
  {
    predicate Known() { !Unknown? }
  }

  /** Provenance of an allowed bit; `NoSource` is the empty string. */
  datatype Source = NoSource | Administrative | FromGrant | Other(text: string)

  /** One capability: the effective bit, where it came from, and whether an
      administrator pinned it. */
  datatype Gate = Gate(allow: bool, source: Source, admin: bool)

  /** Policy fields that no broker rule may touch. */
  datatype Exposure = Exposure(
    allowReveal: bool, clipboard: bool, envExport: bool, launchInject: bool, modelRefresh: bool,
    confirmReveal: bool, confirmExport: bool, clipboardTTL: int)

  datatype Policy = Policy(version: int, resolve: Gate, rotate: Gate, adminRevision: nat, exposure: Exposure)
  {
    function Of(c: Capability): Gate
      requires c.Known()
    {
      if c.Resolve? then resolve else rotate
    }

    /** The second authorisation gate: a legacy (version 0) policy denies. */
    predicate Permits(c: Capability)
      requires c.Known()
    {
      version != 0 && Of(c).allow
    }
  }

  /** What the enabled grants require of one record. */
  datatype Need = Need(resolve: bool, rotate: bool)
  {
    predicate Of(c: Capability)
      requires c.Known()
    {
      if c.Resolve? then resolve else rotate
    }
  }

  const NO_NEED := Need(false, false)

  /** What an approval intent remembers of the policy before it was staged. */
  datatype Baseline = Baseline(resolve: bool, rotate: bool, resolveSource: Source, rotateSource: Source,
                               adminRevision: nat)
  {
    predicate Of(c: Capability)
      requires c.Known()
    {
      if c.Resolve? then resolve else rotate
    }
  }

  // ---------------------------------------------------------------- gates

  /** A bit an administrator stands behind, by flag or by provenance. */
  predicate Held(g: Gate) {
    g.admin || (g.allow && g.source == Administrative)
  }

  function NormalizeGate(g: Gate): Gate {
    if g.admin then Gate(true, Administrative, true)
    else if g.allow && g.source == NoSource then g.(source := Administrative)
    else if !g.allow && g.source == FromGrant then g.(source := NoSource)
    else g
  }

  function MarkGate(on: bool): Gate {
    Gate(on, if on then Administrative else NoSource, on)
  }

  function Settle(held: bool, need: bool, admin: bool): Gate {
    Gate(held || need, if held then Administrative else if need then FromGrant else NoSource, admin)
  }

  /** Lifecycle reconciliation: keep what is held, otherwise what grants need. */
  function ReconcileCurrentGate(g: Gate, need: bool): Gate {
    Settle(Held(g), need, Held(g))
  }

  /** Approval rollback: additionally keep what the baseline remembers. */
  function ReconcileGate(g: Gate, base: bool, need: bool): Gate {
    Settle(base || (g.allow && g.source == Administrative), need, g.admin)
  }

  function GrantGate(g: Gate): Gate {
    Gate(true, if g.source == Administrative then Administrative else FromGrant, g.admin)
  }

  // ---------------------------------------------------------------- policies

  function Normalized(p: Policy): Policy {
    p.(resolve := NormalizeGate(p.resolve), rotate := NormalizeGate(p.rotate))
  }

  function Marked(p: Policy, resolve: bool, rotate: bool): Policy {
    p.(resolve := MarkGate(resolve), rotate := MarkGate(rotate),
       adminRevision := if resolve != p.resolve.admin || rotate != p.rotate.admin
                        then (p.adminRevision + 1) % UINT64_RANGE else p.adminRevision)
  }

  /** A policy that allows something is never left at the legacy version. */
  function Versioned(p: Policy): Policy {
    if p.resolve.allow || p.rotate.allow then p.(version := 1) else p
  }

  function ReconciledCurrent(p: Policy, need: Need): Policy {
    Versioned(p.(resolve := ReconcileCurrentGate(p.resolve, need.resolve),
                 rotate := ReconcileCurrentGate(p.rotate, need.rotate)))
  }

  /** The baseline, unless an administrator changed the flags since. */
  function EffectiveBase(p: Policy, base: Baseline): Need {
    if p.adminRevision != base.adminRevision then Need(p.resolve.admin, p.rotate.admin)
    else Need(base.resolve, base.rotate)
  }

  function Reconciled(p: Policy, base: Baseline, need: Need): Policy {
    ReconciledTo(p, EffectiveBase(p, base), need)
  }

  function ReconciledTo(p: Policy, base: Need, need: Need): Policy {
    Versioned(p.(resolve := ReconcileGate(p.resolve, base.resolve, need.resolve),
                 rotate := ReconcileGate(p.rotate, base.rotate, need.rotate)))
  }

  predicate AllKnown(caps: seq<Capability>) {
    forall c <- caps :: c.Known()
  }

  function Granted(p: Policy, caps: seq<Capability>): Policy {
    p.(version := 1,
       resolve := if Resolve in caps then GrantGate(p.resolve) else p.resolve,
       rotate := if Rotate in caps then GrantGate(p.rotate) else p.rotate)
  }

  const DEFAULT_EXPOSURE := Exposure(true, true, false, true, true, true, true, 60)

  /** Upgrade on load: a version-0 policy becomes the default one, keeping only
      bits that were already allowed, as administrative. */
  function Migrated(p: Policy): Policy {
    if p.version != 0 then p
    else Policy(1, LegacyGate(p.resolve.allow), LegacyGate(p.rotate.allow), 0, DEFAULT_EXPOSURE)
  }

  function LegacyGate(allowed: bool): Gate {
    Gate(allowed, if allowed then Administrative else NoSource, false)
  }

  // ---------------------------------------------------------------- the record

  /** The policy record, with the program's own fields and assignment order. */
  class SecretPolicy {
    var version: int
    var allowBrokerResolve: bool
    var allowBrokerRotate: bool
    var brokerResolveSource: Source
    var brokerRotateSource: Source
    var brokerAdminResolve: bool
    var brokerAdminRotate: bool
    var brokerAdminRevision: nat
    const exposure: Exposure

    function Value(): Policy
      reads this
    {
      Policy(version, Gate(allowBrokerResolve, brokerResolveSource, brokerAdminResolve),
             Gate(allowBrokerRotate, brokerRotateSource, brokerAdminRotate), brokerAdminRevision, exposure)
    }

    constructor (p: Policy)
      ensures Value() == p
    {
      version := p.version;
      allowBrokerResolve, brokerResolveSource, brokerAdminResolve := p.resolve.allow, p.resolve.source, p.resolve.admin;
      allowBrokerRotate, brokerRotateSource, brokerAdminRotate := p.rotate.allow, p.rotate.source, p.rotate.admin;
      brokerAdminRevision := p.adminRevision;
      exposure := p.exposure;
    }

    method NormalizeProvenance()
      modifies this
      ensures Value() == Normalized(old(Value()))
    {
      if allowBrokerResolve && brokerResolveSource == NoSource {
        brokerResolveSource := Administrative;
      }
      if brokerAdminResolve {
        allowBrokerResolve := true;
        brokerResolveSource := Administrative;
      }
      if brokerAdminRotate {
        allowBrokerRotate := true;
        brokerRotateSource := Administrative;
      }
      if allowBrokerRotate && brokerRotateSource == NoSource {
        brokerRotateSource := Administrative;
      }
      if !allowBrokerResolve && brokerResolveSource == FromGrant {
        brokerResolveSource := NoSource;
      }
      if !allowBrokerRotate && brokerRotateSource == FromGrant {
        brokerRotateSource := NoSource;
      }
    }

    method MarkAdministrative(resolve: bool, rotate: bool)
      modifies this
      ensures Value() == Marked(old(Value()), resolve, rotate)
    {
      if resolve != brokerAdminResolve || rotate != brokerAdminRotate {
        brokerAdminRevision := (brokerAdminRevision + 1) % UINT64_RANGE;
      }
      brokerAdminResolve, brokerAdminRotate := resolve, rotate;
      if resolve {
        allowBrokerResolve := true;
        brokerResolveSource := Administrative;
      }
      if rotate {
        allowBrokerRotate := true;
        brokerRotateSource := Administrative;
      }
      if !resolve {
        allowBrokerResolve := false;
        brokerResolveSource := NoSource;
      }
      if !rotate {
        allowBrokerRotate := false;
        brokerRotateSource := NoSource;
      }
    }

    method ReconcileCurrent(need: Need)
      modifies this
      ensures Value() == ReconciledCurrent(old(Value()), need)
    {
      var adminResolve := brokerAdminResolve || (allowBrokerResolve && brokerResolveSource == Administrative);
      var adminRotate := brokerAdminRotate || (allowBrokerRotate && brokerRotateSource == Administrative);
      brokerAdminResolve := adminResolve;
      brokerAdminRotate := adminRotate;
      allowBrokerResolve := adminResolve || need.resolve;
      allowBrokerRotate := adminRotate || need.rotate;
      if allowBrokerResolve {
        if adminResolve {
          brokerResolveSource := Administrative;
        } else {
          brokerResolveSource := FromGrant;
        }
      } else {
        brokerResolveSource := NoSource;
      }
      if allowBrokerRotate {
        if adminRotate {
          brokerRotateSource := Administrative;
        } else {
          brokerRotateSource := FromGrant;
        }
      } else {
        brokerRotateSource := NoSource;
      }
      if allowBrokerResolve || allowBrokerRotate {
        version := 1;
      }
    }

    method ReconcileForSecret(baseline: Baseline, required: Need)
      modifies this
      ensures Value() == Reconciled(old(Value()), baseline, required)
    {
      var base := Need(baseline.resolve, baseline.rotate);
      if brokerAdminRevision != baseline.adminRevision {
        base := Need(brokerAdminResolve, brokerAdminRotate);
      }
      ReconcileTo(base, required);
    }

    method ReconcileTo(base: Need, required: Need)
      modifies this
      ensures Value() == ReconciledTo(old(Value()), base, required)
    {
      var currentResolveAdmin := allowBrokerResolve && brokerResolveSource == Administrative;
      var currentRotateAdmin := allowBrokerRotate && brokerRotateSource == Administrative;
      allowBrokerResolve := base.resolve || currentResolveAdmin || required.resolve;
      allowBrokerRotate := base.rotate || currentRotateAdmin || required.rotate;
      brokerResolveSource := SourceAfter(base.resolve, currentResolveAdmin, required.resolve);
      brokerRotateSource := SourceAfter(base.rotate, currentRotateAdmin, required.rotate);
      if allowBrokerResolve || allowBrokerRotate {
        version := 1;
      }
    }

    /** The provenance a reconciled bit ends with, decided in order. */
    static method SourceAfter(base: bool, currentAdmin: bool, required: bool) returns (source: Source)
      ensures source == if base || currentAdmin then Administrative else if required then FromGrant else NoSource
    {
      source := NoSource;
      if base {
        source := Administrative;
      }
      if currentAdmin {
        source := Administrative;
      }
      if required && source == NoSource {
        source := FromGrant;
      }
    }

    /** Fails on the first unknown capability; the caller then discards the
        record, so the policy is specified only on success. */
    method ApplyGrant(capabilities: seq<Capability>) returns (ok: bool)
      modifies this
      ensures ok <==> AllKnown(capabilities)
      ensures ok ==> Value() == Granted(old(Value()), capabilities)
    {
      var i := 0;
      while i < |capabilities|
        invariant 0 <= i <= |capabilities|
        invariant AllKnown(capabilities[..i])
        invariant Value() == Granted(old(Value()), capabilities[..i]).(version := old(version))
      {
        assert capabilities[..i + 1] == capabilities[..i] + [capabilities[i]];
        match capabilities[i] {
          case Resolve =>
            if brokerResolveSource != Administrative {
              brokerResolveSource := FromGrant;
            }
            allowBrokerResolve := true;
          case Rotate =>
            if brokerRotateSource != Administrative {
              brokerRotateSource := FromGrant;
            }
            allowBrokerRotate := true;
          case Unknown(_) =>
            assert capabilities[i] in capabilities;
            return false;
        }
        i := i + 1;
      }
      assert capabilities[..i] == capabilities;
      version := 1;
      return true;
    }
  }

  // ---------------------------------------------------------------- laws

  /** A policy as every vault write leaves it. */
  predicate IsNormal(p: Policy) {
    p.version != 0 && Normalized(p) == p
  }

  /** One vault write: migrate on load, edit, normalise on save. */
  function LifecycleWrite(p: Policy, need: Need): Policy {
    Normalized(ReconciledCurrent(Migrated(p), need))
  }

  function RollbackWrite(p: Policy, base: Baseline, need: Need): Policy {
    Normalized(Reconciled(Migrated(p), base, need))
  }

  /** Normalisation settles in one pass and loading its result changes nothing. */
  lemma NormalizationSettles(p: Policy)
    ensures Normalized(Normalized(p)) == Normalized(p)
    ensures p.version != 0 ==> Migrated(Normalized(p)) == Normalized(p)
    ensures Migrated(Migrated(p)) == Migrated(p)
  {
  }

  /** Equal but for the version number, which no access check distinguishes
      once it is non-zero. */
  predicate SamePolicy(p: Policy, q: Policy) {
    p.(version := q.version) == q && p.version != 0 && q.version != 0
  }

  lemma RollbackGateAbsorbs(g: Gate, base: bool, n1: bool, n2: bool)
    ensures NormalizeGate(ReconcileGate(NormalizeGate(ReconcileGate(g, base, n1)), base, n2))
         == NormalizeGate(ReconcileGate(g, base, n2))
  {
  }

  lemma LifecycleGateAbsorbs(g: Gate, n1: bool, n2: bool)
    ensures NormalizeGate(ReconcileCurrentGate(NormalizeGate(ReconcileCurrentGate(g, n1)), n2))
         == NormalizeGate(ReconcileCurrentGate(g, n2))
  {
  }

  /** A write interrupted before the metadata was saved and then repeated with
      other needs ends where the later write alone would have; only a stray
      version number above 1 can differ. */
  lemma LifecycleAbsorbs(p: Policy, n1: Need, n2: Need)
    ensures SamePolicy(LifecycleWrite(LifecycleWrite(p, n1), n2), LifecycleWrite(p, n2))
    ensures p.version == 0 || p.version == 1
            ==> LifecycleWrite(LifecycleWrite(p, n1), n2) == LifecycleWrite(p, n2)
  {
    var m := Migrated(p);
    LifecycleGateAbsorbs(m.resolve, n1.resolve, n2.resolve);
    LifecycleGateAbsorbs(m.rotate, n1.rotate, n2.rotate);
  }

  lemma RollbackAbsorbs(p: Policy, base: Baseline, n1: Need, n2: Need)
    ensures SamePolicy(RollbackWrite(RollbackWrite(p, base, n1), base, n2), RollbackWrite(p, base, n2))
    ensures p.version == 0 || p.version == 1
            ==> RollbackWrite(RollbackWrite(p, base, n1), base, n2) == RollbackWrite(p, base, n2)
  {
    var m := Migrated(p);
    var b := EffectiveBase(m, base);
    assert EffectiveBase(RollbackWrite(p, base, n1), base) == b;
    RollbackGateAbsorbs(m.resolve, b.resolve, n1.resolve, n2.resolve);
    RollbackGateAbsorbs(m.rotate, b.rotate, n1.rotate, n2.rotate);
  }
}
