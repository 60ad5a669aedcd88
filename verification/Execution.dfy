/** When each call succeeds, exactly. Executing an approved proposal decides its fate: it succeeds in one
    situation and blocks the proposal in every other, but for one gap that the creation check leaves. */
module Execution {
  import opened Values
  import opened Assets
  import opened Store
  import opened Policy
  import opened Proposals
  import opened Protocol

  // ---------------------------------------------------------------- the other calls

  /** With a store that works, a creation succeeds if and only if the asset is the tenant's, the payload
      passes the check, its texts and the request id fit their columns and the caller has a role in the
      tenant; it then adds the PENDING_REVIEW proposal. */
  lemma CreateIsExact(db: Db, req: Request, payload: Payload, host: Option<string>)
    ensures var (r, answer) := Create(db, req, payload, host, NO_FAULTS);
      && (answer.Ok? <==>
            && Visible(db.catalog, payload.resource, req.tenant)
            && CheckTypeAndDiff(payload, db.catalog.assets[payload.resource]).None?
            && req.principal.tenant == req.tenant && req.principal.roles != {} && RowTakes(payload, host)
            && Decidable(req))
      && (if answer.Ok? then answer.value == |db.proposals| && Proposed(db, r, req, payload, host) else r == db)
  {
    hide CheckTypeAndDiff, Creating, Proposed, EvaluateAccess;
    CreationPolicy(req.principal, req.tenant, PolicyView(db.catalog, payload.resource, req.tenant), true, req.now);
    if Create(db, req, payload, host, NO_FAULTS).1.Ok? {
      CreateIsLegal(db, req, payload, host, NO_FAULTS);
      CreatingAdds(db, req, payload, host, Decide(db.catalog, req, ProposalCreate, payload.resource));
    }
  }

  lemma CreatingAdds(db: Db, req: Request, payload: Payload, host: Option<string>, outcome: Outcome)
    ensures |Creating(db, req, payload, host, outcome).proposals| == |db.proposals| + 1
  {
  }

  /** A proposal that a steward of its tenant finds waiting and in time. */
  predicate Reviewable(db: Db, req: Request, id: nat) {
    && Steward(req.principal) && Found(db, req, id) && db.proposals[id].status == PendingReview
    && req.now < db.proposals[id].expiresAt
  }

  /** Approval succeeds if and only if the proposal is reviewable, its asset still there, the note free of
      NUL and the call fit to be audited; it answers the nonce whose digest it stores. Without success
      nothing changes but, lazily, an overdue status. */
  lemma ApproveIsExact(db: Db, req: Request, id: nat, note: string, nonce: string)
    ensures var (r, answer) := Approve(db, req, id, note, nonce, NO_FAULTS);
      && (answer.Ok? <==>
            && Reviewable(db, req, id) && Writable(note) && Decidable(req)
            && Visible(db.catalog, db.proposals[id].intent.resource, req.tenant))
      && (answer.Ok? ==>
            && answer.value == nonce && Moved(db, r, req, id) && r.proposals[id].status == Approved
            && r.proposals[id].nonceDigest == Some(OfNonce(nonce)) && r.proposals[id].reviewNote == Some(note))
      && (answer.Err? ==> r == db || (Moved(db, r, req, id) && r.proposals[id].status == Expired))
  {
    hide Steward, Moved, EvaluateAccess, Legal;
    ApproveIsLegal(db, req, id, note, nonce, NO_FAULTS);
    if id < |db.proposals| {
      StewardGateIsPolicy(req.principal, req.tenant, ProposalApprove,
                          PolicyView(db.catalog, db.proposals[id].intent.resource, req.tenant), true, req.now);
    }
    hide PolicyEvent;
  }

  /** Rejection succeeds if and only if the proposal is reviewable, the note free of NUL and the call fit to
      be audited. */
  lemma RejectIsExact(db: Db, req: Request, id: nat, note: string)
    ensures var (r, answer) := Reject(db, req, id, note, NO_FAULTS);
      && (answer.Ok? <==> Reviewable(db, req, id) && Writable(note) && Auditable(req))
      && (answer.Ok? ==>
          Moved(db, r, req, id) && r.proposals[id].status == Rejected && r.proposals[id].reviewNote == Some(note))
      && (answer.Err? ==> r == db || (Moved(db, r, req, id) && r.proposals[id].status == Expired))
  {
    hide Steward, Moved, Legal;
    RejectIsLegal(db, req, id, note, NO_FAULTS);
  }

  /** Cancellation succeeds if and only if the proposal is open, the caller its initiator or a steward and the
      call fit to be audited; overdue or not. */
  lemma CancelIsExact(db: Db, req: Request, id: nat)
    ensures var (r, answer) := Cancel(db, req, id, NO_FAULTS);
      && (answer.Ok? <==>
            && Found(db, req, id) && Open(db.proposals[id].status) && Auditable(req)
            && (Steward(req.principal) || db.proposals[id].intent.initiator == req.principal.subject))
      && (if answer.Ok? then Moved(db, r, req, id) && r.proposals[id].status == Cancelled else r == db)
  {
    hide Steward, Moved, Legal;
    CancelIsLegal(db, req, id, NO_FAULTS);
  }

  // ---------------------------------------------------------------- execution

  /** Approved, in time, and called by the approver. */
  predicate Confirmable(db: Db, req: Request, id: nat) {
    && Found(db, req, id)
    && var p := db.proposals[id];
    && p.status == Approved && req.now < p.expiresAt && p.approvedBy == Some(req.principal.subject)
  }

  /** Confirmed with the right hash and a live nonce, at the version it was proposed for, on an asset of
      the session's tenant. */
  predicate Confirmed(db: Db, req: Request, id: nat, hash: Sent, nonce: string) {
    && Confirmable(db, req, id)
    && var p := db.proposals[id];
    && hash == Ascii(p.hash)
    && p.nonceDigest == Some(OfNonce(nonce)) && p.confirmBy.Some? && req.now < p.confirmBy.value
    && Visible(db.catalog, p.intent.resource, req.tenant)
    && ExpectedVersion(p.intent.preconditions) == Some(db.catalog.assets[p.intent.resource].version)
  }

  lemma ConfirmedIsApply(db: Db, req: Request, id: nat, hash: Sent, nonce: string)
    requires Steward(req.principal)
    ensures var v := Verify(db, req, id, hash, nonce);
      && (v.Apply? <==> Confirmed(db, req, id, hash, nonce))
      && (v.Raise? <==> Confirmable(db, req, id) && hash.NotAscii?)
      && (v.Refuse? ==> !Found(db, req, id) || db.proposals[id].status != Approved)
  {
    hide Steward, ExpectedVersion;
    if Found(db, req, id) {
      var key := db.proposals[id].intent.resource;
      StewardGateIsPolicy(req.principal, req.tenant, ProposalExecute, PolicyView(db.catalog, key, req.tenant),
                          true, req.now);
    }
  }

  /** With a store that works, a steward's execution succeeds if and only if it is confirmed, the columns
      take its change and the call is fit to be audited; then the change is made and the proposal EXECUTED. */
  lemma ExecuteIsExact(db: Db, req: Request, id: nat, hash: Sent, nonce: string)
    requires Steward(req.principal)
    ensures var (r, answer) := Execute(db, req, id, hash, nonce, NO_FAULTS);
      && (answer.Ok? <==>
            Confirmed(db, req, id, hash, nonce) && !Unstorable(db.domains, db.proposals[id].intent) && Decidable(req))
      && (answer.Ok? ==> r.proposals[id].status == Executed && Moved(db, r, req, id))
  {
    hide Steward, Verify, Blocking, Executing, Audited, Unstorable, Auditable;
    ConfirmedIsApply(db, req, id, hash, nonce);
    if Confirmed(db, req, id, hash, nonce) && !Unstorable(db.domains, db.proposals[id].intent) {
      ExecutedStatus(db, req, id);
      ExecutingMoves(db, req, id);
    }
  }

  predicate StatusAt(db: Db, id: nat, s: Status) { id < |db.proposals| && db.proposals[id].status == s }

  /** With any store: only a confirmed execution call of a steward makes a proposal EXECUTED, and only its own. */
  lemma OnlyConfirmedExecutes(db: Db, c: Call, req: Request, f: Faults, id: nat)
    requires id < |db.proposals| && !StatusAt(db, id, Executed) && StatusAt(Commit(db, c, req, f), id, Executed)
    ensures c.ExecuteCall? && c.id == id && Steward(req.principal)
    ensures Confirmed(db, req, id, c.hash, c.nonce) && !Unstorable(db.domains, db.proposals[id].intent)
    ensures Decidable(req)
  {
    EveryCallIsLegal(db, c, req, f);
    if c.ApproveCall? || c.RejectCall? || c.CancelCall? { OthersDoNotExecute(db, c, req, f); }
    if c.CreateCall? { CreateKeepsRows(db, c, req, f, id); }
    hide Tracked, Legal, Applied, Untouched, Waits, CheckTypeAndDiff, Steward, Commit;
    if c.ExecuteCall? {
      assert c.id == id;
      ExecutedIsApply(db, req, id, c.hash, c.nonce, f);
    }
  }

  lemma CreateKeepsRows(db: Db, c: Call, req: Request, f: Faults, id: nat)
    requires c.CreateCall? && id < |db.proposals|
    ensures id < |Commit(db, c, req, f).proposals| && Commit(db, c, req, f).proposals[id] == db.proposals[id]
  {
    hide Decide, CheckTypeAndDiff, Visible, NewProposal;
  }

  lemma OthersDoNotExecute(db: Db, c: Call, req: Request, f: Faults)
    requires c.ApproveCall? || c.RejectCall? || c.CancelCall?
    ensures StatusAt(Commit(db, c, req, f), c.id, Executed) ==> StatusAt(db, c.id, Executed)
  {
    hide Decide, Steward;
  }

  lemma ExecutedIsApply(db: Db, req: Request, id: nat, hash: Sent, nonce: string, f: Faults)
    requires !StatusAt(db, id, Executed) && StatusAt(Execute(db, req, id, hash, nonce, f).0, id, Executed)
    ensures Steward(req.principal) && Confirmed(db, req, id, hash, nonce)
    ensures !Unstorable(db.domains, db.proposals[id].intent) && Decidable(req)
  {
    hide Verify, Executing, Unstorable, Steward, Confirmed;
    BlockedByWorkflow(db, req, id, hash, nonce);
    OnlyStewardsPass(db, req, id, hash, nonce);
    var v := Verify(db, req, id, hash, nonce);
    if v.Block? && id < |db.proposals| { BlockedStatus(db, req, id, v); }
    hide Blocking, Audited;
    if v.Apply? { ConfirmedIsApply(db, req, id, hash, nonce); }
  }

  lemma OnlyStewardsPass(db: Db, req: Request, id: nat, hash: Sent, nonce: string)
    ensures !Verify(db, req, id, hash, nonce).Refuse? ==> Steward(req.principal) && Found(db, req, id)
  {
    hide Decide, ExpectedVersion, Found, Steward;
  }

  lemma ExecutedStatus(db: Db, req: Request, id: nat)
    requires id < |db.proposals| && db.proposals[id].intent.resource in db.catalog.assets
    ensures |Executing(db, req, id).proposals| == |db.proposals|
    ensures Executing(db, req, id).proposals[id].status == Executed
  {
  }

  /** The calls that raise instead of failing a recheck: a hash that is not ASCII, and a confirmed change
      that the columns do not take or whose policy decision cannot be recorded. */
  predicate Raises(db: Db, req: Request, id: nat, hash: Sent, nonce: string) {
    || (Confirmable(db, req, id) && hash.NotAscii?)
    || (Confirmed(db, req, id, hash, nonce) && (Unstorable(db.domains, db.proposals[id].intent) || !Decidable(req)))
  }

  /** The blocks that are committed on the spot: an overdue proposal, and a confirmation by the approver,
      with hash and nonce, that comes too late. */
  predicate TooLate(db: Db, req: Request, id: nat, hash: Sent, nonce: string)
    requires id < |db.proposals|
  {
    var p := db.proposals[id];
    || p.expiresAt <= req.now
    || (Confirmable(db, req, id) && hash == Ascii(p.hash) && p.nonceDigest == Some(OfNonce(nonce))
        && (p.confirmBy.Some? ==> p.confirmBy.value <= req.now))
  }

  /** The first recheck that an unconfirmed execution fails. */
  function FirstFailure(db: Db, req: Request, id: nat, hash: Sent, nonce: string): Error
    requires id < |db.proposals|
  {
    var p := db.proposals[id];
    if p.expiresAt <= req.now then WorkflowError(409, "proposal_expired")
    else if p.approvedBy != Some(req.principal.subject) then WorkflowError(403, "proposal_approver_mismatch")
    else if hash != Ascii(p.hash) then WorkflowError(409, "proposal_hash_mismatch")
    else if p.nonceDigest != Some(OfNonce(nonce)) then WorkflowError(409, "confirmation_nonce_invalid")
    else if p.confirmBy.Some? ==> p.confirmBy.value <= req.now then WorkflowError(409, "confirmation_nonce_expired")
    else if !Visible(db.catalog, p.intent.resource, req.tenant) then WorkflowError(404, "proposal_resource_not_found")
    else WorkflowError(409, "proposal_precondition_failed")
  }

  /** With a store that works, every unsuccessful execution of an APPROVED proposal by a steward of its
      tenant leaves it BLOCKED, without its nonce, and the catalog as it was, if and only if it neither
      raises nor comes under a name or request id that the audit trail does not take; otherwise it changes
      nothing at all. It answers with the recheck that failed, or with 503 where it raises or where a block
      that has to be committed on the spot cannot be recorded. */
  lemma ExecuteIsDecisive(db: Db, req: Request, id: nat, hash: Sent, nonce: string)
    requires Steward(req.principal) && Found(db, req, id) && db.proposals[id].status == Approved
    ensures var (r, answer) := Execute(db, req, id, hash, nonce, NO_FAULTS);
      answer.Err? ==>
        && (if Raises(db, req, id, hash, nonce) || !Auditable(req) then r == db
            else (&& Moved(db, r, req, id) && r.proposals[id].status == Blocked
                  && r.proposals[id].nonceDigest == None && Untouched(db, r)))
        && answer.error ==
           if Raises(db, req, id, hash, nonce) || (TooLate(db, req, id, hash, nonce) && !Auditable(req))
           then EXECUTION_FAILED
           else FirstFailure(db, req, id, hash, nonce)
  {
    hide Steward, Executing, Unstorable, Moved, Decide, ExpectedVersion, Visible, ConfirmationError, Auditable;
    ConfirmedIsApply(db, req, id, hash, nonce);
    FailureIsFirst(db, req, id, hash, nonce);
    hide FirstFailure, TooLate, Confirmed, Confirmable;
    var v := Verify(db, req, id, hash, nonce);
    if v.Block? {
      BlockedByWorkflow(db, req, id, hash, nonce);
      BlockingMoves(db, req, id, v);
      BlockedStatus(db, req, id, v);
      hide Verify, Blocking, Audited;
      if Auditable(req) { MovedUntouched(db, Execute(db, req, id, hash, nonce, NO_FAULTS).0, req, id); }
    }
  }

  /** The verdict on an APPROVED proposal, without the policy: its steward is allowed. */
  lemma FailureIsFirst(db: Db, req: Request, id: nat, hash: Sent, nonce: string)
    requires Steward(req.principal) && Found(db, req, id) && db.proposals[id].status == Approved
    ensures var v := Verify(db, req, id, hash, nonce);
      && !v.Refuse?
      && (v.Block? ==> v == Block(FirstFailure(db, req, id, hash, nonce), TooLate(db, req, id, hash, nonce), false))
  {
    hide Steward, ExpectedVersion;
    var key := db.proposals[id].intent.resource;
    StewardGateIsPolicy(req.principal, req.tenant, ProposalExecute, PolicyView(db.catalog, key, req.tenant),
                        true, req.now);
  }

  lemma BlockedByWorkflow(db: Db, req: Request, id: nat, hash: Sent, nonce: string)
    ensures Verify(db, req, id, hash, nonce).Block? ==> Verify(db, req, id, hash, nonce).error.WorkflowError?
  {
    hide Decide, ExpectedVersion, Steward, Found;
  }

  lemma BlockedStatus(db: Db, req: Request, id: nat, v: Verdict)
    requires id < |db.proposals| && v.Block? && v.error.WorkflowError?
    ensures var r := Blocking(if v.afterPolicy then Audited(db, req, id) else db, req, id, v.error.code);
      |r.proposals| == |db.proposals| && r.proposals[id].status == Blocked && r.proposals[id].nonceDigest == None
  {
  }

  lemma MovedUntouched(db: Db, r: Db, req: Request, id: nat)
    requires Moved(db, r, req, id) && r.proposals[id].status == Blocked
    ensures Untouched(db, r)
  {
  }

  // ---------------------------------------------------------------- the gap is real

  /** Three diffs that pass the creation check and that no PostgreSQL store takes: a domain that does not
      exist, a description with a NUL, an owner longer than its column. */
  lemma UnstorableDiffs(domains: set<string>, domain: string, owner: string)
    requires domain !in domains && |owner| > 255
    ensures var diffs := [map["domain_id" := JText(domain)], map["description" := JText("\0")],
                          map["owner" := JText(owner)]];
      forall i | 0 <= i < 3 :: DiffError(AssetCuration, diffs[i]).None? && !Storable(domains, CurationOf(diffs[i]))
  {
    var diffs := [map["domain_id" := JText(domain)], map["description" := JText("\0")], map["owner" := JText(owner)]];
    forall i | 0 <= i < 3 ensures DiffError(AssetCuration, diffs[i]).None? && !Storable(domains, CurationOf(diffs[i])) {
      var f := [DomainId, Description, Owner][i];
      assert f in CURATION_FIELDS by { assert CURATION_FIELDS[[3, 0, 2][i]] == f; }
      assert FieldName(f) in diffs[i] && f in CurationOf(diffs[i]);
      assert !ColumnTakes(domains, f, CurationOf(diffs[i])[f]);
    }
  }

  /** The database after a steward has proposed a change and approved it. */
  function AfterApproval(db: Db, req: Request, payload: Payload, note: string, nonce: string): Db {
    Approve(Create(db, req, payload, None, NO_FAULTS).0, req, |db.proposals|, note, nonce, NO_FAULTS).0
  }

  /** A steward of the tenant proposes a change that passes the creation check, with texts that fit. */
  predicate Proposable(db: Db, req: Request, payload: Payload, note: string) {
    && Steward(req.principal) && req.principal.tenant == req.tenant && Visible(db.catalog, payload.resource, req.tenant)
    && CheckTypeAndDiff(payload, db.catalog.assets[payload.resource]).None? && RowTakes(payload, None)
    && payload.expiresIn > 0 && Writable(note) && Decidable(req)
  }

  lemma ApprovedIsConfirmable(db: Db, req: Request, payload: Payload, note: string, nonce: string)
    requires Proposable(db, req, payload, note)
    ensures var id, r := |db.proposals|, AfterApproval(db, req, payload, note, nonce);
      && |r.proposals| == id + 1 && r.proposals[id].status == Approved && r.domains == db.domains
      && r.proposals[id].intent == IntentOf(payload, req, None)
      && Confirmed(r, req, id, Ascii(OfIntent(IntentOf(payload, req, None))), nonce)
  {
    var id, proposed := |db.proposals|, Create(db, req, payload, None, NO_FAULTS).0;
    CreateIsExact(db, req, payload, None);
    assert DataSteward in req.principal.roles || PlatformAdmin in req.principal.roles;
    hide Create, RowTakes, Steward, Auditable;
    ProposedFacts(db, proposed, req, payload);
    hide CheckTypeAndDiff, Proposed;
    ApproveIsExact(proposed, req, id, note, nonce);
    hide Approve, Tracked, Found, Visible, IntentOf, ExpectedVersion;
    ApprovedIsConfirmed(proposed, AfterApproval(db, req, payload, note, nonce), req, id, nonce);
  }

  /** Whatever passes the creation check but not the columns can be proposed and approved; its confirmed
      execution answers 503 and leaves it APPROVED with its nonce alive. */
  lemma UnstorableStaysApproved(db: Db, req: Request, payload: Payload, note: string, nonce: string)
    requires Proposable(db, req, payload, note) && Unstorable(db.domains, IntentOf(payload, req, None))
    ensures var id, r, hash := |db.proposals|, AfterApproval(db, req, payload, note, nonce),
      Ascii(OfIntent(IntentOf(payload, req, None)));
      && |r.proposals| == id + 1 && r.proposals[id].status == Approved
      && Confirmed(r, req, id, hash, nonce)
      && Execute(r, req, id, hash, nonce, NO_FAULTS) == (r, Err(EXECUTION_FAILED))
  {
    ApprovedIsConfirmable(db, req, payload, note, nonce);
    hide AfterApproval, Unstorable, IntentOf, Execute, TooLate, FirstFailure, CheckTypeAndDiff, Steward, Auditable;
    var id, r, hash := |db.proposals|, AfterApproval(db, req, payload, note, nonce),
      Ascii(OfIntent(IntentOf(payload, req, None)));
    ExecuteIsDecisive(r, req, id, hash, nonce);
    ExecuteIsExact(r, req, id, hash, nonce);
  }

  /** Under a request id that the audit trail does not take, the approver may try nonces for as long as the
      confirmation is open: a wrong one is refused, and blocks nothing. */
  lemma WrongNonceStaysApproved(db: Db, req: Request, id: nat, hash: Sent, nonce: string, guess: string,
        requestId: string)
    requires Steward(req.principal) && Confirmed(db, req, id, hash, nonce) && guess != nonce && !Fits(requestId, 128)
    ensures Execute(db, req.(requestId := requestId), id, hash, guess, NO_FAULTS) ==
            (db, Err(WorkflowError(409, "confirmation_nonce_invalid")))
  {
    var call := req.(requestId := requestId);
    hide Execute, Steward, Visible, ExpectedVersion, Unstorable;
    SameSteward(req, call);
    ExecuteIsDecisive(db, call, id, hash, guess);
    ExecuteIsExact(db, call, id, hash, guess);
  }

  lemma SameSteward(req: Request, call: Request)
    requires call.principal == req.principal
    ensures Steward(call.principal) == Steward(req.principal)
  {
  }

  lemma ProposedFacts(db: Db, r: Db, req: Request, payload: Payload)
    requires Proposed(db, r, req, payload, None) && req.principal.tenant == req.tenant && payload.expiresIn > 0
    ensures var id := |db.proposals|;
      && Found(r, req, id) && r.domains == db.domains && Visible(r.catalog, payload.resource, req.tenant)
      && var p := r.proposals[id];
      && |r.proposals| == id + 1 && p.hash == OfIntent(IntentOf(payload, req, None))
      && p.intent == IntentOf(payload, req, None) && p.intent.resource == payload.resource
      && p.status == PendingReview && req.now < p.expiresAt
      && ExpectedVersion(p.intent.preconditions) == Some(r.catalog.assets[payload.resource].version)
  {
    hide Tracked, DiffError;
  }

  lemma ApprovedIsConfirmed(proposed: Db, approved: Db, req: Request, id: nat, nonce: string)
    requires Found(proposed, req, id) && Moved(proposed, approved, req, id) && approved.proposals[id].status == Approved
    requires var p := proposed.proposals[id];
      && Visible(proposed.catalog, p.intent.resource, req.tenant)
      && ExpectedVersion(p.intent.preconditions) == Some(proposed.catalog.assets[p.intent.resource].version)
    requires approved.proposals[id].nonceDigest == Some(OfNonce(nonce))
    ensures Confirmed(approved, req, id, Ascii(approved.proposals[id].hash), nonce)
    ensures approved.proposals[id].intent == proposed.proposals[id].intent
    ensures approved.proposals[id].hash == proposed.proposals[id].hash
    ensures approved.domains == proposed.domains && |approved.proposals| == |proposed.proposals|
  {
    hide Tracked, ExpectedVersion, Steward;
  }
}
