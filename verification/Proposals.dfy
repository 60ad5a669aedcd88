/** The governance proposal workflow as transitions of the database: what
    apps/catalog-api/app/services/proposal_service.py commits, and what it answers. */
module Proposals {
  import opened Values
  import opened Assets
  import opened Store
  import opened Policy

  datatype Payload = Payload(
    proposalType: ProposalType, resource: Key, title: string, text: string, diff: map<string, Json>,
    evidence: seq<Json>, impact: map<string, Json>, preconditions: map<string, Json>,
    channel: string, agent: Option<string>, model: Option<string>, expiresIn: nat)

  /** An authenticated call: who, in which session tenant, when, and under which id, which is a header that
      nobody checks. */
  datatype Request = Request(principal: Principal, tenant: string, now: int, requestId: string)

  datatype Error = WorkflowError(status: int, code: string) | OtherError

  /** Where the store lets a call down: the policy audit write, the main flush or commit, the commit of
      a block, or the refresh after a commit that did happen. */
  datatype Faults = Faults(policyAudit: bool, store: bool, block: bool, refresh: bool)

  const NO_FAULTS := Faults(false, false, false, false)

  /** The columns of an audit event take caller and request id. */
  predicate Auditable(req: Request) { Fits(req.principal.subject, 255) && Fits(req.requestId, 128) }

  /** A policy decision is audited too, and its context wants a request id. */
  predicate Decidable(req: Request) { Auditable(req) && req.requestId != "" }

  predicate PolicyFails(req: Request, f: Faults) { f.policyAudit || !Decidable(req) }

  predicate TransitionFails(req: Request, f: Faults) { f.store || !Auditable(req) }

  predicate BlockFails(req: Request, f: Faults) { f.block || !Auditable(req) }

  const CONFIRMATION_SECONDS := 15 * 60

  // ---------------------------------------------------------------- creation checks

  const CURATION_FIELDS: seq<CuratedField> := [Description, Tags, Owner, DomainId]

  function FieldName(f: CuratedField): string {
    match f
    case Description => "description"
    case Tags => "tags"
    case Owner => "owner"
    case Classification => "classification"
    case DomainId => "domain_id"
    case Lifecycle => "lifecycle_status"
  }

  predicate BoundedText(j: Json, max: nat) { j.JText? && |j.text| <= max }

  const INVALID_DIFF := WorkflowError(422, "invalid_proposal_diff")

  function DiffError(t: ProposalType, diff: map<string, Json>): Option<Error> {
    match t
    case AssetCuration =>
      if diff == map[] || !(diff.Keys <= {"description", "tags", "owner", "domain_id"}) then Some(INVALID_DIFF)
      else if "description" in diff && !BoundedText(diff["description"], 10_000) then Some(INVALID_DIFF)
      else if "tags" in diff
        && !(diff["tags"].JList? && forall t | t in diff["tags"].items :: BoundedText(t, 100) && t.text != "")
      then Some(INVALID_DIFF)
      else None
    case CertificationReview =>
      if !(diff.Keys <= {"note"}) || ("note" in diff && !BoundedText(diff["note"], 5_000))
      then Some(INVALID_DIFF) else None
    case QualitySchedule =>
      if diff.Keys != {"schedule"} || !diff["schedule"].JObject?
         || !(diff["schedule"].members.Keys <= {"frequency", "rule_types"}) then Some(INVALID_DIFF)
      else
        var m := diff["schedule"].members;
        if "frequency" in m && (m["frequency"].JList? || m["frequency"].JObject?) then Some(OtherError)  // unhashable
        else if "frequency" !in m || m["frequency"] !in {JText("daily"), JText("weekly"), JText("manual")}
        then Some(INVALID_DIFF)
        else if "rule_types" in m
          && !(m["rule_types"].JList? && forall r | r in m["rule_types"].items :: r.JText? && r.text != "")
        then Some(INVALID_DIFF)
        else None
  }

  /** `isinstance(value, int)`: a Python bool is an int. */
  function AsInt(j: Json): Option<int> {
    match j
    case JInt(n) => Some(n)
    case JBool(b) => Some(if b then 1 else 0)
    case _ => None
  }

  function ExpectedVersion(preconditions: map<string, Json>): Option<int> {
    if "technical_version" in preconditions then AsInt(preconditions["technical_version"]) else None
  }

  function PreconditionError(preconditions: map<string, Json>): Option<Error> {
    var expected := ExpectedVersion(preconditions);
    if expected.None? || expected.value < 1 then Some(WorkflowError(422, "missing_version_precondition")) else None
  }

  function CheckTypeAndDiff(payload: Payload, a: Asset): Option<Error> {
    var diff := DiffError(payload.proposalType, payload.diff);
    var pre := PreconditionError(payload.preconditions);
    if diff.Some? then diff
    else if pre.Some? then pre
    else if ExpectedVersion(payload.preconditions) != Some(a.version)
    then Some(WorkflowError(409, "proposal_precondition_failed"))
    else None
  }

  // ---------------------------------------------------------------- shared steps

  predicate Visible(c: Catalog, key: Key, tenant: string) {
    key in c.assets && c.assets[key].tenant == tenant
  }

  function PolicyView(catalog: Catalog, key: Key, tenant: string): Option<Resource> {
    if !Visible(catalog, key, tenant) then None
    else
      var a := catalog.assets[key];
      var c := a.curated;
      Some(Resource(
        Classification in c && c[Classification] != JNull,
        if Lifecycle in c && c[Lifecycle] == JText("certified") then Certified
        else if Lifecycle in c && c[Lifecycle] == JText("deprecated") then Deprecated else UnderReview,
        if Owner in c && c[Owner].JText? then Some(c[Owner].text) else None,
        a.explainableAt))
  }

  function Decide(c: Catalog, req: Request, action: Action, key: Key): Outcome {
    EvaluateAccess(req.principal, req.tenant, action, PolicyView(c, key, req.tenant), true, req.now).outcome
  }

  /** The proposal row is selected in the session's tenant and checked against the principal's. */
  predicate Found(db: Db, req: Request, id: nat) {
    id < |db.proposals| && db.proposals[id].tenant == req.tenant && db.proposals[id].tenant == req.principal.tenant
  }

  predicate Open(s: Status) { s == PendingReview || s == Approved }

  predicate Due(p: Proposal, now: int) { Open(p.status) && p.expiresAt <= now }

  function PolicyEvent(req: Request, action: string, outcome: Outcome): AuditEvent {
    PolicyDecision(req.principal.subject, action,
                   match outcome case Allow => "allow" case AllowWithObligations => "allow_with_obligations"
                                 case RequiresHumanApproval => "requires_human_approval" case Deny => "deny")
  }

  /** Store a changed row and append its transition event, as `_record_transition` does. */
  function Record(db: Db, req: Request, id: nat, p: Proposal, action: string, outcome: string): Db
    requires id < |db.proposals|
  {
    db.(audit := db.audit + [Transition(req.principal.subject, action, id, outcome)],
        proposals := db.proposals[id := p.(auditEvent := Some(|db.audit|))])
  }

  function Expire(p: Proposal): Proposal { p.(status := Expired, nonceDigest := None, confirmBy := None) }

  // ---------------------------------------------------------------- create

  function IntentOf(payload: Payload, req: Request, host: Option<string>): Intent {
    Intent(payload.proposalType, payload.resource, payload.title, payload.text, payload.diff, payload.evidence,
           payload.impact, payload.preconditions, req.principal.subject, payload.channel,
           payload.agent, payload.model, host)
  }

  function NewProposal(payload: Payload, req: Request, host: Option<string>): Proposal {
    var intent := IntentOf(payload, req, host);
    Proposal(req.tenant, intent, OfIntent(intent), req.now + payload.expiresIn, PendingReview,
             None, None, 0, None, None, None, None, None, 0, None, None, None, None, None)
  }

  /** The text columns of a proposal row take the payload. */
  predicate RowTakes(payload: Payload, host: Option<string>) {
    && Fits(payload.title, 255) && Writable(payload.text) && Fits(payload.channel, 64)
    && OptFits(payload.agent, 255) && OptFits(payload.model, 255) && OptFits(host, 255)
  }

  function Creating(db: Db, req: Request, payload: Payload, host: Option<string>, outcome: Outcome): Db {
    var p := NewProposal(payload, req, host);
    var audited := db.(audit := db.audit + [PolicyEvent(req, "governance.proposal.create", outcome)],
                       proposals := db.proposals + [p]);
    Record(audited, req, |db.proposals|, p, "governance_proposal.create", "success")
  }

  const AUDIT_UNAVAILABLE := WorkflowError(503, "proposal_audit_unavailable")

  /** The first check that fails, in the order of the service. */
  function CreationError(db: Db, req: Request, payload: Payload, host: Option<string>, f: Faults): Option<Error> {
    if !Visible(db.catalog, payload.resource, req.tenant) then Some(WorkflowError(404, "proposal_resource_not_found"))
    else
      var check := CheckTypeAndDiff(payload, db.catalog.assets[payload.resource]);
      if check.Some? then check
      else if PolicyFails(req, f) then Some(OtherError)
      else if Decide(db.catalog, req, ProposalCreate, payload.resource) == Deny
      then Some(WorkflowError(403, "proposal_creation_denied"))
      else if f.store || !RowTakes(payload, host) then Some(AUDIT_UNAVAILABLE)
      else None
  }

  function Create(db: Db, req: Request, payload: Payload, host: Option<string>, f: Faults): (Db, Result<nat, Error>) {
    var e := CreationError(db, req, payload, host, f);
    if e.Some? then (db, Err(e.value))
    else
      (Creating(db, req, payload, host, Decide(db.catalog, req, ProposalCreate, payload.resource)),
       if f.refresh then Err(AUDIT_UNAVAILABLE) else Ok(|db.proposals|))
  }

  // ---------------------------------------------------------------- review

  datatype Review = ToApprove | ToReject

  function ReviewError(db: Db, req: Request, id: nat): Option<Error> {
    if !Steward(req.principal) then Some(WorkflowError(403, "proposal_steward_required"))
    else if !Found(db, req, id) then Some(WorkflowError(404, "proposal_not_found"))
    else if Due(db.proposals[id], req.now) then Some(WorkflowError(409, "proposal_expired"))
    else if db.proposals[id].status != PendingReview then Some(WorkflowError(409, "proposal_not_pending"))
    else None
  }

  /** Reviewing an overdue proposal commits its expiry, without an audit event. */
  function LazyExpiry(db: Db, req: Request, id: nat, f: Faults): Db {
    if Steward(req.principal) && Found(db, req, id) && Due(db.proposals[id], req.now) && !f.store
    then db.(proposals := db.proposals[id := Expire(db.proposals[id])]) else db
  }

  function ReviewFailure(db: Db, req: Request, id: nat, f: Faults): Error
    requires ReviewError(db, req, id).Some?
  {
    var e := ReviewError(db, req, id).value;
    if e == WorkflowError(409, "proposal_expired") && f.store then OtherError else e
  }

  function Approve(db: Db, req: Request, id: nat, note: string, nonce: string, f: Faults): (Db, Result<string, Error>) {
    if ReviewError(db, req, id).Some? then (LazyExpiry(db, req, id, f), Err(ReviewFailure(db, req, id, f)))
    else
      var p := db.proposals[id];
      var outcome := Decide(db.catalog, req, ProposalApprove, p.intent.resource);
      if PolicyFails(req, f) then (db, Err(OtherError))
      else if outcome == Deny then (db, Err(WorkflowError(403, "proposal_approval_denied")))
      else if f.store || !Writable(note) then (db, Err(AUDIT_UNAVAILABLE))
      else
        var approved := p.(status := Approved, approvedBy := Some(req.principal.subject), approvedAt := Some(req.now),
                           reviewNote := Some(note), approvalVersion := p.approvalVersion + 1,
                           nonceDigest := Some(OfNonce(nonce)), confirmBy := Some(req.now + CONFIRMATION_SECONDS));
        var audited := db.(audit := db.audit + [PolicyEvent(req, "governance.proposal.approve", outcome)]);
        (Record(audited, req, id, approved, "governance_proposal.approve", "success"),
         if f.refresh then Err(AUDIT_UNAVAILABLE) else Ok(nonce))
  }

  function Reject(db: Db, req: Request, id: nat, note: string, f: Faults): (Db, Result<(), Error>) {
    if ReviewError(db, req, id).Some? then (LazyExpiry(db, req, id, f), Err(ReviewFailure(db, req, id, f)))
    else if TransitionFails(req, f) || !Writable(note) then (db, Err(AUDIT_UNAVAILABLE))
    else
      var rejected := db.proposals[id].(status := Rejected, rejectedBy := Some(req.principal.subject),
                                        reviewNote := Some(note));
      (Record(db, req, id, rejected, "governance_proposal.reject", "success"),
       if f.refresh then Err(AUDIT_UNAVAILABLE) else Ok(()))
  }

  /** Cancellation does not look at the expiry. */
  function Cancel(db: Db, req: Request, id: nat, f: Faults): (Db, Result<(), Error>) {
    if !Found(db, req, id) then (db, Err(WorkflowError(404, "proposal_not_found")))
    else
      var p := db.proposals[id];
      if p.intent.initiator != req.principal.subject && !Steward(req.principal) then
        (db, Err(WorkflowError(403, "proposal_steward_required")))
      else if !Open(p.status) then (db, Err(WorkflowError(409, "proposal_not_cancellable")))
      else if TransitionFails(req, f) then (db, Err(AUDIT_UNAVAILABLE))
      else
        var cancelled := p.(status := Cancelled, cancelledBy := Some(req.principal.subject), nonceDigest := None,
                            confirmBy := None);
        (Record(db, req, id, cancelled, "governance_proposal.cancel", "success"),
         if f.refresh then Err(AUDIT_UNAVAILABLE) else Ok(()))
  }

  // ---------------------------------------------------------------- execute

  /** What the rechecks conclude. A block is either committed on the spot or by the handler of the
      raised error, and may come before or after the policy decision was audited. A comparison that
      raises is no recheck that failed. */
  datatype Verdict =
    | Refuse(error: Error)
    | Raise
    | Block(error: Error, onTheSpot: bool, afterPolicy: bool)
    | Apply

  /** What a caller sends as the proposal hash; the digest comparison takes no other text than ASCII. */
  datatype Sent = Ascii(digest: Digest) | NotAscii

  /** Approver, proposal hash and one-time nonce, in this order. */
  function ConfirmationError(p: Proposal, req: Request, hash: Sent, nonce: string): Option<Error> {
    if p.approvedBy != Some(req.principal.subject) then Some(WorkflowError(403, "proposal_approver_mismatch"))
    else if hash.NotAscii? then Some(OtherError)
    else if hash.digest != p.hash then Some(WorkflowError(409, "proposal_hash_mismatch"))
    else if p.nonceDigest != Some(OfNonce(nonce)) then Some(WorkflowError(409, "confirmation_nonce_invalid"))
    else None
  }

  /** The rechecks of a confirmed proposal: its resource, that resource's version, and the policy. */
  function VerifyResource(db: Db, req: Request, id: nat): Verdict
    requires id < |db.proposals|
  {
    var p := db.proposals[id];
    var key := p.intent.resource;
    if !Visible(db.catalog, key, req.tenant) then Block(WorkflowError(404, "proposal_resource_not_found"), false, false)
    else if ExpectedVersion(p.intent.preconditions) != Some(db.catalog.assets[key].version) then
      Block(WorkflowError(409, "proposal_precondition_failed"), false, false)
    else if Decide(db.catalog, req, ProposalExecute, key) != Allow then
      Block(WorkflowError(403, "proposal_reauthorization_denied"), true, true)
    else Apply
  }

  function Verify(db: Db, req: Request, id: nat, hash: Sent, nonce: string): Verdict {
    if !Steward(req.principal) then Refuse(WorkflowError(403, "proposal_steward_required"))
    else if !Found(db, req, id) then Refuse(WorkflowError(404, "proposal_not_found"))
    else
      var p := db.proposals[id];
      if Due(p, req.now) then Block(WorkflowError(409, "proposal_expired"), true, false)
      else if p.status != Approved then Refuse(WorkflowError(409, "proposal_not_approved"))
      else if ConfirmationError(p, req, hash, nonce) == Some(OtherError) then Raise
      else if ConfirmationError(p, req, hash, nonce).Some?
      then Block(ConfirmationError(p, req, hash, nonce).value, false, false)
      else if p.confirmBy.None? || p.confirmBy.value <= req.now then
        Block(WorkflowError(409, "confirmation_nonce_expired"), true, false)
      else VerifyResource(db, req, id)
  }

  function Attempted(p: Proposal): Proposal { p.(attempts := p.attempts + 1) }

  function Blocking(db: Db, req: Request, id: nat, reason: string): Db
    requires id < |db.proposals|
  {
    var p := Attempted(db.proposals[id]).(
      status := Blocked, outcome := Some("blocked"), blockedReason := Some(reason),
      nonceDigest := None, confirmBy := None);
    Record(db, req, id, p, "governance_proposal.execute", "blocked")
  }

  /** The part of a diff that curation may set, by field. */
  function CurationOf(diff: map<string, Json>): Curated {
    map f | f in CURATION_FIELDS && FieldName(f) in diff :: diff[FieldName(f)]
  }

  /** The creation check does not ask whether the columns take what a diff proposes. */
  predicate Unstorable(domains: set<string>, intent: Intent) {
    match intent.proposalType
    case AssetCuration => !Storable(domains, CurationOf(intent.diff))
    case CertificationReview =>
      "note" in intent.diff && intent.diff["note"].JText? && !Writable(intent.diff["note"].text)
    case QualitySchedule => false
  }

  function Restrict(c: Curated, fields: set<CuratedField>): Curated { map f | f in c && f in fields :: c[f] }

  function Curate(a: Asset, changes: Curated, id: nat, actor: string, now: int): Asset {
    a.(curated := a.curated + changes, curatedAt := Some(now),
       history := a.history + [ProposalApplied(Restrict(a.curated, changes.Keys), changes, id, actor)])
  }

  /** `_apply_typed_change`: the one change an executed proposal makes outside its own row. */
  function TypedChange(db: Db, id: nat, intent: Intent, actor: string, now: int): (r: Db)
    requires intent.resource in db.catalog.assets
    ensures r.proposals == db.proposals && r.audit == db.audit && r.jobs == db.jobs && r.sync == db.sync
    ensures r.domains == db.domains
    ensures r.catalog.documents == db.catalog.documents && r.catalog.assets.Keys == db.catalog.assets.Keys
  {
    var key, assets := intent.resource, db.catalog.assets;
    match intent.proposalType
    case AssetCuration =>
      db.(catalog := db.catalog.(assets := assets[key := Curate(assets[key], CurationOf(intent.diff), id, actor, now)]))
    case CertificationReview =>
      var note := if "note" in intent.diff && intent.diff["note"].JText? then Some(intent.diff["note"].text) else None;
      db.(certifications := db.certifications + [CertificationRequest(key, intent.initiator, note)])
    case QualitySchedule =>
      var schedule := if "schedule" in intent.diff then intent.diff["schedule"] else JNull;
      db.(schedules := db.schedules + [ScheduleRequest(id, key, intent.initiator, schedule)])
  }

  function Executing(db: Db, req: Request, id: nat): Db
    requires id < |db.proposals| && db.proposals[id].intent.resource in db.catalog.assets
  {
    var p := db.proposals[id];
    var done := Attempted(p).(
      status := Executed, outcome := Some("executed"), executedBy := Some(req.principal.subject),
      executedAt := Some(req.now), nonceDigest := None, confirmBy := None);
    Record(TypedChange(Audited(db, req, id), id, p.intent, req.principal.subject, req.now), req, id, done,
           "governance_proposal.execute", "success")
  }

  /** The policy decision of an execution, on the record. */
  function Audited(db: Db, req: Request, id: nat): Db
    requires id < |db.proposals|
  {
    var outcome := Decide(db.catalog, req, ProposalExecute, db.proposals[id].intent.resource);
    db.(audit := db.audit + [PolicyEvent(req, "governance.proposal.execute", outcome)])
  }

  const EXECUTION_FAILED := WorkflowError(503, "proposal_execution_blocked")

  function Execute(db: Db, req: Request, id: nat, hash: Sent, nonce: string, f: Faults): (Db, Result<(), Error>) {
    match Verify(db, req, id, hash, nonce)
    case Refuse(e) => (db, Err(e))
    case Raise => (db, Err(EXECUTION_FAILED))
    case Block(e, onTheSpot, afterPolicy) =>
      if afterPolicy && PolicyFails(req, f) then (db, Err(EXECUTION_FAILED))
      else if BlockFails(req, f) then (db, Err(if onTheSpot then EXECUTION_FAILED else e))
      else
        (Blocking(if afterPolicy then Audited(db, req, id) else db, req, id, e.code), Err(e))
    case Apply =>
      if PolicyFails(req, f) || f.store || Unstorable(db.domains, db.proposals[id].intent)
      then (db, Err(EXECUTION_FAILED))
      else (Executing(db, req, id), if f.refresh then Err(EXECUTION_FAILED) else Ok(()))
  }
}
