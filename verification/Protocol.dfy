/** What every call of the proposal workflow does to the database, seen from outside: which moves of
    a proposal are legal, what they are audited as, and which of them applies the proposed change. */
module Protocol {
  import opened Values
  import opened Assets
  import opened Store
  import opened Policy
  import opened Proposals

  datatype Call =
    | CreateCall(payload: Payload, host: Option<string>)
    | ApproveCall(id: nat, note: string, freshNonce: string)
    | RejectCall(id: nat, note: string)
    | CancelCall(id: nat)
    | ExecuteCall(id: nat, hash: Sent, nonce: string)

  function Commit(db: Db, c: Call, req: Request, f: Faults): Db {
    match c
    case CreateCall(payload, host) => Create(db, req, payload, host, f).0
    case ApproveCall(id, note, nonce) => Approve(db, req, id, note, nonce, f).0
    case RejectCall(id, note) => Reject(db, req, id, note, f).0
    case CancelCall(id) => Cancel(db, req, id, f).0
    case ExecuteCall(id, hash, nonce) => Execute(db, req, id, hash, nonce, f).0
  }

  // ---------------------------------------------------------------- the legal moves

  predicate Terminal(s: Status) { !Open(s) }

  /** PENDING_REVIEW comes first, then APPROVED, then the terminal statuses. */
  function Rank(s: Status): nat { if s == PendingReview then 0 else if s == Approved then 1 else 2 }

  /** The parts of a row that no call may rewrite. */
  predicate SameProposal(p: Proposal, q: Proposal) {
    q.intent == p.intent && q.hash == p.hash && q.tenant == p.tenant && q.expiresAt == p.expiresAt
  }

  predicate SameApproval(p: Proposal, q: Proposal) {
    q.approvedBy == p.approvedBy && q.approvedAt == p.approvedAt && q.approvalVersion == p.approvalVersion
  }

  /** Only an execution attempt counts one and says how it came out. */
  predicate SameExecution(p: Proposal, q: Proposal) {
    && q.attempts == p.attempts && q.outcome == p.outcome && q.blockedReason == p.blockedReason
    && q.executedBy == p.executedBy && q.executedAt == p.executedAt
  }

  /** Who may move a proposal where, and when; who it is signed by; and what it leaves alone. */
  predicate Legal(p: Proposal, q: Proposal, req: Request) {
    var me := Some(req.principal.subject);
    && SameProposal(p, q) && req.tenant == req.principal.tenant == p.tenant
    && Open(p.status)
    && (q.status == Cancelled || Steward(req.principal))
    && (q.status != Approved ==> SameApproval(p, q))
    && (q.status != Executed && q.status != Blocked ==> SameExecution(p, q))
    && (q.status != Rejected ==> q.rejectedBy == p.rejectedBy)
    && (q.status != Rejected && q.status != Approved ==> q.reviewNote == p.reviewNote)
    && (q.cancelledBy == if q.status == Cancelled then me else p.cancelledBy)
    && (q.status != Approved && q.status != Rejected ==> q.nonceDigest == None && q.confirmBy == None)
    && match q.status
       case PendingReview => false
       case Approved =>
         && p.status == PendingReview && req.now < p.expiresAt
         && q.approvedBy == me && q.approvedAt == Some(req.now) && q.approvalVersion == p.approvalVersion + 1
         && q.reviewNote.Some?
         && q.nonceDigest.Some? && q.nonceDigest.value.OfNonce? && q.confirmBy == Some(req.now + CONFIRMATION_SECONDS)
       case Rejected =>
         && p.status == PendingReview && req.now < p.expiresAt && q.rejectedBy == me && q.reviewNote.Some?
         && q.nonceDigest == p.nonceDigest && q.confirmBy == p.confirmBy
       case Cancelled => Steward(req.principal) || p.intent.initiator == req.principal.subject
       case Expired => p.expiresAt <= req.now
       case Blocked =>
         && (p.status == Approved || p.expiresAt <= req.now)
         && q.blockedReason.Some? && q.attempts == p.attempts + 1 && q.executedBy == p.executedBy
         && q.executedAt == p.executedAt
       case Executed =>
         && p.status == Approved && p.approvedBy == me == q.executedBy && q.executedAt == Some(req.now)
         && p.confirmBy.Some? && req.now < p.confirmBy.value && req.now < p.expiresAt
         && q.attempts == p.attempts + 1 && q.blockedReason == p.blockedReason
  }

  /** What a move is called on the audit trail. */
  function ActionOf(s: Status): string {
    match s
    case PendingReview => "governance_proposal.create"
    case Approved => "governance_proposal.approve"
    case Rejected => "governance_proposal.reject"
    case Cancelled => "governance_proposal.cancel"
    case _ => "governance_proposal.execute"
  }

  function OutcomeOf(s: Status): string { if s == Blocked then "blocked" else "success" }

  /** The number of `governance_proposal` audit events of a proposal. */
  function Transitions(audit: seq<AuditEvent>, id: nat): nat {
    if audit == [] then 0
    else
      var e := audit[|audit| - 1];
      Transitions(audit[..|audit| - 1], id) + if e.Transition? && e.proposal == id then 1 else 0
  }

  /** The audit trail grew by at most a policy decision followed by `last`. */
  predicate Appended(before: seq<AuditEvent>, after: seq<AuditEvent>, last: seq<AuditEvent>) {
    || after == before + last
    || (|after| > |before| && after[|before|].PolicyDecision? && after == before + [after[|before|]] + last)
  }

  predicate Untouched(db: Db, r: Db) {
    && r.catalog == db.catalog && r.certifications == db.certifications && r.schedules == db.schedules
    && r.jobs == db.jobs && r.sync == db.sync && r.domains == db.domains
  }

  /** The proposed change was made, at the version it was proposed for, on an asset of the tenant. */
  predicate Applied(db: Db, r: Db, req: Request, id: nat)
    requires id < |db.proposals|
  {
    var intent := db.proposals[id].intent;
    && Visible(db.catalog, intent.resource, req.tenant)
    && ExpectedVersion(intent.preconditions) == Some(db.catalog.assets[intent.resource].version)
    && !Unstorable(db.domains, intent)
    && Untouched(TypedChange(db, id, intent, req.principal.subject, req.now), r)
  }

  predicate Moved(db: Db, r: Db, req: Request, id: nat) {
    && id < |db.proposals| == |r.proposals| && r.proposals == db.proposals[id := r.proposals[id]]
    && var p, q := db.proposals[id], r.proposals[id];
    && Legal(p, q, req)
    && (if q.status == Executed then Applied(db, r, req, id) else Untouched(db, r))
    && if q.status == Expired then r.audit == db.audit else Tracked(db.audit, r, req, id)
  }

  /** One transition event names the caller and the proposal, and the row points back at it. */
  predicate Tracked(before: seq<AuditEvent>, r: Db, req: Request, id: nat)
    requires id < |r.proposals|
  {
    && r.audit != [] && var e := r.audit[|r.audit| - 1];
    && e.Transition? && e.proposal == id && e.actor == req.principal.subject
    && e.action == ActionOf(r.proposals[id].status) && e.outcome == OutcomeOf(r.proposals[id].status)
    && r.proposals[id].auditEvent == Some(|r.audit| - 1)
    && Appended(before, r.audit, [e])
  }

  /** A new proposal says what was submitted, by whom and until when, and waits for a review. */
  predicate Waits(p: Proposal, req: Request, payload: Payload, host: Option<string>) {
    && p.intent.diff == payload.diff && p.intent.resource == payload.resource
    && p.intent.proposalType == payload.proposalType
    && p.intent.preconditions == payload.preconditions && p.intent.initiator == req.principal.subject
    && p.intent.host == host
    && p.hash == OfIntent(p.intent) && p.tenant == req.tenant && p.expiresAt == req.now + payload.expiresIn
    && p.status == PendingReview && p.approvalVersion == 0 && p.attempts == 0 && p.nonceDigest == None
    && p.confirmBy == None
  }

  predicate Proposed(db: Db, r: Db, req: Request, payload: Payload, host: Option<string>) {
    && |r.proposals| == |db.proposals| + 1 && r.proposals[..|db.proposals|] == db.proposals
    && Untouched(db, r) && Tracked(db.audit, r, req, |db.proposals|)
    && Visible(db.catalog, payload.resource, req.tenant)
    && CheckTypeAndDiff(payload, db.catalog.assets[payload.resource]).None?
    && Waits(r.proposals[|db.proposals|], req, payload, host)
    && r.proposals[|db.proposals|] ==
      NewProposal(payload, req, host).(auditEvent := r.proposals[|db.proposals|].auditEvent)
  }

  predicate Outcome(db: Db, r: Db, c: Call, req: Request) {
    || r == db
    || (c.CreateCall? && Proposed(db, r, req, c.payload, c.host))
    || (!c.CreateCall? && Moved(db, r, req, c.id))
  }

  /** Recording a legal move, after at most one policy decision, is a move. */
  lemma RecordMoves(db: Db, mid: Db, req: Request, id: nat, q: Proposal)
    requires id < |db.proposals| && mid.proposals == db.proposals && Appended(db.audit, mid.audit, [])
    requires Legal(db.proposals[id], q, req) && q.status != Expired
    requires if q.status == Executed then Applied(db, mid, req, id) else Untouched(db, mid)
    ensures Moved(db, Record(mid, req, id, q, ActionOf(q.status), OutcomeOf(q.status)), req, id)
  {
  }

  lemma Decided(db: Db, event: AuditEvent)
    requires event.PolicyDecision?
    ensures Appended(db.audit, db.audit + [event], []) && Appended(db.audit, db.audit, [])
  {
  }

  lemma NewProposalWaits(req: Request, payload: Payload, host: Option<string>, event: Option<nat>)
    ensures Waits(NewProposal(payload, req, host).(auditEvent := event), req, payload, host)
  {
  }

  lemma CreatingIsTracked(db: Db, req: Request, payload: Payload, host: Option<string>, outcome: Outcome)
    ensures var r := Creating(db, req, payload, host, outcome);
      |r.proposals| == |db.proposals| + 1 && Tracked(db.audit, r, req, |db.proposals|)
  {
  }

  lemma CreateIsLegal(db: Db, req: Request, payload: Payload, host: Option<string>, f: Faults)
    ensures var r := Create(db, req, payload, host, f).0; r == db || Proposed(db, r, req, payload, host)
  {
    hide Decide, CheckTypeAndDiff, Visible, Tracked, Waits, NewProposal, PolicyEvent;
    CreatingIsTracked(db, req, payload, host, Decide(db.catalog, req, ProposalCreate, payload.resource));
    NewProposalWaits(req, payload, host, Some(|db.audit| + 1));
  }

  lemma ExpiryIsLegal(db: Db, req: Request, id: nat, f: Faults)
    ensures var r := LazyExpiry(db, req, id, f); r == db || Moved(db, r, req, id)
  {
  }

  lemma ApproveIsLegal(db: Db, req: Request, id: nat, note: string, nonce: string, f: Faults)
    ensures var r := Approve(db, req, id, note, nonce, f).0; r == db || Moved(db, r, req, id)
  {
    hide Decide, Steward, LazyExpiry, ReviewFailure, Moved, Record;
    if ReviewError(db, req, id).Some? {
      ExpiryIsLegal(db, req, id, f);
    } else if Approve(db, req, id, note, nonce, f).0 != db {
      var p := db.proposals[id];
      var event := PolicyEvent(req, "governance.proposal.approve",
                               Decide(db.catalog, req, ProposalApprove, p.intent.resource));
      var approved := p.(status := Approved, approvedBy := Some(req.principal.subject), approvedAt := Some(req.now),
                         reviewNote := Some(note), approvalVersion := p.approvalVersion + 1,
                         nonceDigest := Some(OfNonce(nonce)), confirmBy := Some(req.now + CONFIRMATION_SECONDS));
      Decided(db, event);
      RecordMoves(db, db.(audit := db.audit + [event]), req, id, approved);
    }
  }

  lemma RejectIsLegal(db: Db, req: Request, id: nat, note: string, f: Faults)
    ensures var r := Reject(db, req, id, note, f).0; r == db || Moved(db, r, req, id)
  {
  }

  lemma CancelIsLegal(db: Db, req: Request, id: nat, f: Faults)
    ensures var r := Cancel(db, req, id, f).0; r == db || Moved(db, r, req, id)
  {
  }

  lemma ExecuteIsLegal(db: Db, req: Request, id: nat, hash: Sent, nonce: string, f: Faults)
    ensures var r := Execute(db, req, id, hash, nonce, f).0; r == db || Moved(db, r, req, id)
  {
    hide Decide, Steward, ExpectedVersion, Unstorable, TypedChange, Blocking, Executing, Audited, Moved;
    var r, v := Execute(db, req, id, hash, nonce, f).0, Verify(db, req, id, hash, nonce);
    if r != db {
      if v.Block? {
        BlockingMoves(db, req, id, v);
      } else {
        ExecutingMoves(db, req, id);
      }
    }
  }

  lemma BlockingMoves(db: Db, req: Request, id: nat, v: Verdict)
    requires v.Block? && v.error.WorkflowError? && Found(db, req, id) && Steward(req.principal)
    requires Open(db.proposals[id].status)
    requires db.proposals[id].status == Approved || db.proposals[id].expiresAt <= req.now
    ensures Moved(db, Blocking(if v.afterPolicy then Audited(db, req, id) else db, req, id, v.error.code), req, id)
  {
  }

  lemma ExecutingMoves(db: Db, req: Request, id: nat)
    requires Found(db, req, id) && Steward(req.principal)
    requires var p := db.proposals[id];
      && p.status == Approved && p.approvedBy == Some(req.principal.subject) && req.now < p.expiresAt
      && p.confirmBy.Some? && req.now < p.confirmBy.value
      && Visible(db.catalog, p.intent.resource, req.tenant)
      && ExpectedVersion(p.intent.preconditions) == Some(db.catalog.assets[p.intent.resource].version)
      && !Unstorable(db.domains, p.intent)
    ensures Moved(db, Executing(db, req, id), req, id)
  {
  }

  /** Whatever anyone calls, and however the store fails, a call commits nothing, adds one proposal
      that passed the creation check, or makes one legal move. */
  lemma EveryCallIsLegal(db: Db, c: Call, req: Request, f: Faults)
    ensures Outcome(db, Commit(db, c, req, f), c, req)
  {
    hide Moved, Proposed, Create, Approve, Reject, Cancel, Execute;
    match c
    case CreateCall(payload, host) => CreateIsLegal(db, req, payload, host, f);
    case ApproveCall(id, note, nonce) => ApproveIsLegal(db, req, id, note, nonce, f);
    case RejectCall(id, note) => RejectIsLegal(db, req, id, note, f);
    case CancelCall(id) => CancelIsLegal(db, req, id, f);
    case ExecuteCall(id, hash, nonce) => ExecuteIsLegal(db, req, id, hash, nonce, f);
  }
}
