/** The access decision table of apps/catalog-api/app/services/policy_service.py. Classification and
    purpose matching are inputs: the resource says whether it is sensitive, the request whether its
    purpose is a permitted one. */
module Policy {
  import opened Values

  datatype Role = PlatformAdmin | DataSteward | DataOwner | Analyst | ReadOnly

  datatype Principal = Principal(subject: string, tenant: string, roles: set<Role>)

  datatype Action =
    | AssetRead | AssetCurate | QualityEvidenceUpdate | ClassificationReview | CertificationDecide
    | ProposalCreate | ProposalApprove | ProposalExecute
    | Unsupported

  datatype Outcome = Allow | AllowWithObligations | RequiresHumanApproval | Deny

  datatype LifecycleStatus = UnderReview | Certified | Deprecated

  /** A visible resource as the rules see it. */
  datatype Resource = Resource(
    sensitive: bool, lifecycle: LifecycleStatus, owner: Option<string>, explainableAt: Option<int>)

  datatype Decision = Decision(outcome: Outcome, rule: string)

  const READERS: set<Role> := {DataSteward, DataOwner, Analyst, ReadOnly}
  const QUALITY_FRESHNESS_MAX_AGE: int := 7 * 24 * 3600

  predicate Steward(p: Principal) { DataSteward in p.roles || PlatformAdmin in p.roles }

  predicate RoleAllows(p: Principal, action: Action) {
    PlatformAdmin in p.roles ||
    match action
    case AssetRead => p.roles * READERS != {}
    case ProposalCreate => p.roles * READERS != {}
    case AssetCurate => p.roles * {DataSteward, DataOwner} != {}
    case Unsupported => false
    case _ => DataSteward in p.roles
  }

  predicate QualityIsFresh(r: Resource, now: int) {
    r.explainableAt.Some? && r.explainableAt.value >= now - QUALITY_FRESHNESS_MAX_AGE
  }

  function EvaluateRules(p: Principal, action: Action, visible: Option<Resource>, permittedPurpose: bool,
      now: int): Decision
  {
    if visible.None? then Decision(Deny, "DG-POLICY-TENANT-NONVISIBLE")
    else if !RoleAllows(p, action) then Decision(Deny, "DG-POLICY-RBAC-DENY")
    else
      var r := visible.value;
      if action == AssetCurate && !Steward(p) && !(DataOwner in p.roles && r.owner == Some(p.subject)) then
        Decision(Deny, "DG-POLICY-OWNERSHIP-DENY")
      else if action == AssetRead && r.lifecycle == Deprecated then
        Decision(Deny, "DG-POLICY-LIFECYCLE-DEPRECATED-DENY")
      else if action == AssetRead && r.sensitive && !permittedPurpose then
        Decision(Deny, "DG-POLICY-CLASSIFICATION-PURPOSE-DENY")
      else if action == AssetRead && r.sensitive then
        Decision(AllowWithObligations, "DG-POLICY-CLASSIFICATION-OBLIGATION")
      else if action == AssetRead && r.lifecycle == Certified && !QualityIsFresh(r, now) then
        Decision(AllowWithObligations, "DG-POLICY-QUALITY-FRESHNESS-OBLIGATION")
      else if action == CertificationDecide && !QualityIsFresh(r, now) then
        Decision(RequiresHumanApproval, "DG-POLICY-QUALITY-FRESHNESS-APPROVAL")
      else Decision(Allow, "DG-POLICY-ACTION-ALLOW")
  }

  /** `evaluate_access`: the tenant boundary is checked before the resource is looked up. */
  function EvaluateAccess(
    p: Principal, sessionTenant: string, action: Action, visible: Option<Resource>, permittedPurpose: bool,
    now: int): Decision
  {
    if action == Unsupported then Decision(Deny, "DG-POLICY-CONTRACT-UNSUPPORTED")
    else if p.tenant != sessionTenant then Decision(Deny, "DG-POLICY-TENANT-MISMATCH")
    else EvaluateRules(p, action, visible, permittedPurpose, now)
  }

  /** Widening a principal's roles never changes a decision that was not a denial. */
  lemma RolesAreMonotone(p: Principal, more: set<Role>, tenant: string, action: Action, visible: Option<Resource>,
      purpose: bool, now: int)
    requires EvaluateAccess(p, tenant, action, visible, purpose, now).outcome != Deny
    ensures EvaluateAccess(p.(roles := p.roles + more), tenant, action, visible, purpose, now) ==
            EvaluateAccess(p, tenant, action, visible, purpose, now)
  {
  }

  /** The steward gate implies ALLOW: for approving and executing a proposal, whatever the asset's
      classification, lifecycle or quality and whatever the time, the policy allows exactly the
      stewards of the session's tenant on a visible asset. */
  lemma StewardGateIsPolicy(p: Principal, tenant: string, action: Action, visible: Option<Resource>, purpose: bool,
      now: int)
    requires action == ProposalApprove || action == ProposalExecute
    ensures var d := EvaluateAccess(p, tenant, action, visible, purpose, now);
      && (d.outcome == Allow <==> Steward(p) && p.tenant == tenant && visible.Some?)
      && (d.outcome == Allow || d.outcome == Deny)
  {
  }

  /** Creation is open to every catalogue role of the tenant, and to nobody else. */
  lemma CreationPolicy(p: Principal, tenant: string, visible: Option<Resource>, purpose: bool, now: int)
    ensures EvaluateAccess(p, tenant, ProposalCreate, visible, purpose, now).outcome ==
            if p.roles != {} && p.tenant == tenant && visible.Some? then Allow else Deny
  {
    if r :| r in p.roles && r != PlatformAdmin { assert r in p.roles * READERS; }
    if p.roles != {} && PlatformAdmin !in p.roles {
      var r :| r in p.roles;
      assert r in p.roles * READERS;
    }
  }

  /** A plain ALLOW to read is given only for an asset that is not deprecated, not sensitive and, if it is
      certified, of fresh quality; a sensitive asset is readable for a permitted purpose, with obligations. */
  lemma ReadingIsGuarded(p: Principal, tenant: string, r: Resource, purpose: bool, now: int)
    ensures var outcome := EvaluateAccess(p, tenant, AssetRead, Some(r), purpose, now).outcome;
      && (outcome == Allow <==>
            && p.roles != {} && p.tenant == tenant && r.lifecycle != Deprecated && !r.sensitive
            && (r.lifecycle == Certified ==> QualityIsFresh(r, now)))
      && (r.sensitive && outcome != Deny ==> outcome == AllowWithObligations && purpose)
  {
    CreationPolicy(p, tenant, Some(r), purpose, now);
  }

  /** Only a steward, or the asset's own owner, may curate; nobody certifies stale quality without review. */
  lemma OwnershipAndEvidence(p: Principal, tenant: string, r: Resource, purpose: bool, now: int)
    ensures EvaluateAccess(p, tenant, AssetCurate, Some(r), purpose, now).outcome == Allow <==>
            p.tenant == tenant && (Steward(p) || (DataOwner in p.roles && r.owner == Some(p.subject)))
    ensures EvaluateAccess(p, tenant, CertificationDecide, Some(r), purpose, now).outcome ==
            if p.tenant != tenant || !Steward(p) then Deny else if QualityIsFresh(r, now) then Allow
            else RequiresHumanApproval
  {
    if DataSteward in p.roles || DataOwner in p.roles {
      var role := if DataSteward in p.roles then DataSteward else DataOwner;
      assert role in p.roles * {DataSteward, DataOwner};
    }
  }
}
