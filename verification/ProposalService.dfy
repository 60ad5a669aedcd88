/** The workflow in the form the service has it: calls that change rows of an open session step by
    step, commit or roll back, and turn exceptions into blocks. Each is proved to commit and answer
    exactly what its transition in `Proposals` says. */
module ProposalService {
  import opened Values
  import opened Assets
  import opened Store
  import opened Policy
  import opened Proposals

  /** The open session's proposals differ from `base` in row id at most. */
  ghost predicate OnlyRow(base: seq<Proposal>, db: Session, id: nat)
    reads db
  {
    id < |base| == |db.work.proposals| && db.work.proposals == base[id := db.work.proposals[id]]
  }

  method Put(db: Session, ghost base: seq<Proposal>, id: nat, p: Proposal)
    requires OnlyRow(base, db, id)
    modifies db`work
    ensures OnlyRow(base, db, id) && db.work == old(db.work).(proposals := base[id := p])
  {
    db.work := db.work.(proposals := db.work.proposals[id := p]);
  }

  /** `evaluate_rest_policy`: the decision is audited in the open transaction, or the call fails. */
  method EvaluatePolicy(db: Session, req: Request, action: Action, name: string, key: Key, fails: bool)
    returns (r: Result<Outcome, Error>)
    modifies db`work
    ensures r == if fails then Err(OtherError) else Ok(Decide(old(db.work).catalog, req, action, key))
    ensures db.work == if fails then old(db.work)
                       else old(db.work).(audit := old(db.work).audit +
                                          [PolicyEvent(req, name, Decide(old(db.work).catalog, req, action, key))])
  {
    if fails { return Err(OtherError); }
    var outcome := Decide(db.work.catalog, req, action, key);
    db.work := db.work.(audit := db.work.audit + [PolicyEvent(req, name, outcome)]);
    r := Ok(outcome);
  }

  method RecordTransition(db: Session, ghost base: seq<Proposal>, req: Request, id: nat, action: string,
        outcome: string)
    requires OnlyRow(base, db, id)
    modifies db`work
    ensures OnlyRow(base, db, id)
    ensures db.work == Record(old(db.work).(proposals := base), req, id, old(db.work).proposals[id], action, outcome)
  {
    var event := |db.work.audit|;
    db.work := db.work.(audit := db.work.audit + [Transition(req.principal.subject, action, id, outcome)]);
    Put(db, base, id, db.work.proposals[id].(auditEvent := Some(event)));
  }

  /** `_expire_if_due`. */
  method ExpireIfDue(db: Session, ghost base: seq<Proposal>, id: nat, now: int) returns (expired: bool)
    requires OnlyRow(base, db, id)
    modifies db`work
    ensures OnlyRow(base, db, id) && expired == Due(old(db.work).proposals[id], now)
    ensures db.work ==
      if expired then old(db.work).(proposals := base[id := Expire(old(db.work).proposals[id])]) else old(db.work)
  {
    var p := db.work.proposals[id];
    expired := Open(p.status) && p.expiresAt <= now;
    if expired {
      p := p.(status := Expired);
      p := p.(nonceDigest := None);
      p := p.(confirmBy := None);
      Put(db, base, id, p);
    }
  }

  method CreateProposal(db: Session, req: Request, payload: Payload, host: Option<string>, f: Faults)
    returns (r: Result<nat, Error>)
    requires db.work == db.committed
    modifies db
    ensures (db.committed, r) == Create(old(db.committed), req, payload, host, f)
  {
    hide Decide, CheckTypeAndDiff;
    if !Visible(db.work.catalog, payload.resource, req.tenant) {
      return Err(WorkflowError(404, "proposal_resource_not_found"));
    }
    var check := CheckTypeAndDiff(payload, db.work.catalog.assets[payload.resource]);
    if check.Some? { return Err(check.value); }
    var decision := EvaluatePolicy(db, req, ProposalCreate, "governance.proposal.create", payload.resource,
                                   PolicyFails(req, f));
    if decision.Err? { return Err(decision.error); }
    if decision.value == Deny { return Err(WorkflowError(403, "proposal_creation_denied")); }
    var id := |db.work.proposals|;
    db.work := db.work.(proposals := db.work.proposals + [NewProposal(payload, req, host)]);
    RecordTransition(db, db.work.proposals, req, id, "governance_proposal.create", "success");
    var ok := db.Commit(f.store || !RowTakes(payload, host));
    if !ok || f.refresh {
      db.Rollback();
      return Err(AUDIT_UNAVAILABLE);
    }
    r := Ok(id);
  }

  /** The gates shared by approval and rejection. */
  method OpenReview(db: Session, req: Request, id: nat, f: Faults) returns (error: Option<Error>)
    requires db.work == db.committed
    modifies db
    ensures if ReviewError(old(db.committed), req, id).Some?
      then db.committed == LazyExpiry(old(db.committed), req, id, f)
        && error == Some(ReviewFailure(old(db.committed), req, id, f))
      else error == None && db.work == db.committed == old(db.committed)
  {
    if !Steward(req.principal) { return Some(WorkflowError(403, "proposal_steward_required")); }
    if !Found(db.work, req, id) { return Some(WorkflowError(404, "proposal_not_found")); }
    var expired := ExpireIfDue(db, db.committed.proposals, id, req.now);
    if expired {
      var ok := db.Commit(f.store);
      return Some(if ok then WorkflowError(409, "proposal_expired") else OtherError);
    }
    if db.work.proposals[id].status != PendingReview { return Some(WorkflowError(409, "proposal_not_pending")); }
    error := None;
  }

  method ApproveProposal(db: Session, req: Request, id: nat, note: string, nonce: string, f: Faults)
    returns (r: Result<string, Error>)
    requires db.work == db.committed
    modifies db
    ensures (db.committed, r) == Approve(old(db.committed), req, id, note, nonce, f)
  {
    hide Decide;
    var gate := OpenReview(db, req, id, f);
    if gate.Some? { return Err(gate.value); }
    var key := db.work.proposals[id].intent.resource;
    var decision := EvaluatePolicy(db, req, ProposalApprove, "governance.proposal.approve", key, PolicyFails(req, f));
    if decision.Err? { return Err(decision.error); }
    if decision.value == Deny { return Err(WorkflowError(403, "proposal_approval_denied")); }
    var p := db.work.proposals[id];
    p := p.(status := Approved, approvedBy := Some(req.principal.subject), approvedAt := Some(req.now),
            reviewNote := Some(note));
    p := p.(approvalVersion := p.approvalVersion + 1);
    p := p.(nonceDigest := Some(OfNonce(nonce)), confirmBy := Some(req.now + CONFIRMATION_SECONDS));
    Put(db, db.committed.proposals, id, p);
    RecordTransition(db, db.committed.proposals, req, id, "governance_proposal.approve", "success");
    var ok := db.Commit(f.store || !Writable(note));
    if !ok || f.refresh {
      db.Rollback();
      return Err(AUDIT_UNAVAILABLE);
    }
    r := Ok(nonce);
  }

  method RejectProposal(db: Session, req: Request, id: nat, note: string, f: Faults) returns (r: Result<(), Error>)
    requires db.work == db.committed
    modifies db
    ensures (db.committed, r) == Reject(old(db.committed), req, id, note, f)
  {
    var gate := OpenReview(db, req, id, f);
    if gate.Some? { return Err(gate.value); }
    var p := db.work.proposals[id];
    p := p.(status := Rejected, rejectedBy := Some(req.principal.subject), reviewNote := Some(note));
    Put(db, db.committed.proposals, id, p);
    RecordTransition(db, db.committed.proposals, req, id, "governance_proposal.reject", "success");
    var ok := db.Commit(TransitionFails(req, f) || !Writable(note));
    if !ok || f.refresh {
      db.Rollback();
      return Err(AUDIT_UNAVAILABLE);
    }
    r := Ok(());
  }

  method CancelProposal(db: Session, req: Request, id: nat, f: Faults) returns (r: Result<(), Error>)
    requires db.work == db.committed
    modifies db
    ensures (db.committed, r) == Cancel(old(db.committed), req, id, f)
  {
    if !Found(db.work, req, id) { return Err(WorkflowError(404, "proposal_not_found")); }
    var p := db.work.proposals[id];
    if p.intent.initiator != req.principal.subject && !Steward(req.principal) {
      return Err(WorkflowError(403, "proposal_steward_required"));
    }
    if !Open(p.status) { return Err(WorkflowError(409, "proposal_not_cancellable")); }
    p := p.(status := Cancelled, cancelledBy := Some(req.principal.subject), nonceDigest := None, confirmBy := None);
    Put(db, db.committed.proposals, id, p);
    RecordTransition(db, db.committed.proposals, req, id, "governance_proposal.cancel", "success");
    var ok := db.Commit(TransitionFails(req, f));
    if !ok || f.refresh {
      db.Rollback();
      return Err(AUDIT_UNAVAILABLE);
    }
    r := Ok(());
  }

  /** `_block_execution`: whatever the row's status was, it becomes durably non-executable. */
  method BlockExecution(db: Session, req: Request, id: nat, reason: string, fails: bool) returns (ok: bool)
    requires OnlyRow(db.committed.proposals, db, id)
    modifies db
    ensures ok == !fails
    ensures ok ==> db.work == db.committed == Record(old(db.work).(proposals := old(db.committed).proposals), req, id,
      old(db.work).proposals[id].(status := Blocked, outcome := Some("blocked"), blockedReason := Some(reason),
                                  nonceDigest := None, confirmBy := None), "governance_proposal.execute", "blocked")
    ensures !ok ==> db.committed == old(db.committed)
  {
    var p := db.work.proposals[id];
    p := p.(status := Blocked, outcome := Some("blocked"));
    p := p.(blockedReason := Some(reason), nonceDigest := None, confirmBy := None);
    Put(db, db.committed.proposals, id, p);
    RecordTransition(db, db.committed.proposals, req, id, "governance_proposal.execute", "blocked");
    ok := db.Commit(fails);
  }

  function Later(i: nat): set<CuratedField>
    requires i <= |CURATION_FIELDS|
  {
    set f | f in CURATION_FIELDS[i..]
  }

  lemma LaterStep(diff: map<string, Json>, i: nat)
    requires i < |CURATION_FIELDS|
    ensures var f, c := CURATION_FIELDS[i], CurationOf(diff);
      c - Later(i + 1) == if FieldName(f) in diff then (c - Later(i))[f := diff[FieldName(f)]] else c - Later(i)
    ensures CurationOf(diff) - Later(0) == map[] && Later(|CURATION_FIELDS|) == {}
  {
    hide FieldName;
    assert CURATION_FIELDS[0..] == CURATION_FIELDS;
    var f, c := CURATION_FIELDS[i], CurationOf(diff);
    assert CURATION_FIELDS[i..] == [f] + CURATION_FIELDS[i + 1..];
    assert f in CURATION_FIELDS;
    RemoveLess(c, Later(i), Later(i + 1), f);
  }

  lemma AddLast(a: Curated, c: Curated, f: CuratedField, v: Json)
    ensures (a + c)[f := v] == a + c[f := v]
  {
  }

  /** The field assignments of an executed curation, collected into its version row. */
  method AssignFields(asset: Asset, diff: map<string, Json>, id: nat, actor: string, now: int) returns (a: Asset)
    ensures a == Curate(asset, CurationOf(diff), id, actor, now)
  {
    hide CurationOf, FieldName;
    var curated, changes: Curated := asset.curated, map[];
    LaterStep(diff, 0);
    for i := 0 to |CURATION_FIELDS|
      invariant changes == CurationOf(diff) - Later(i) && curated == asset.curated + changes
    {
      var field := CURATION_FIELDS[i];
      LaterStep(diff, i);
      if FieldName(field) in diff {
        AddLast(asset.curated, changes, field, diff[FieldName(field)]);
        changes := changes[field := diff[FieldName(field)]];
        curated := curated[field := diff[FieldName(field)]];
      }
    }
    assert changes == CurationOf(diff);
    var row := ProposalApplied(Restrict(asset.curated, changes.Keys), changes, id, actor);
    a := asset.(curated := curated, curatedAt := Some(now), history := asset.history + [row]);
  }

  /** `_apply_typed_change`. */
  method ApplyTypedChange(db: Session, req: Request, id: nat)
    requires id < |db.work.proposals| && db.work.proposals[id].intent.resource in db.work.catalog.assets
    modifies db`work
    ensures db.work == TypedChange(old(db.work), id, old(db.work).proposals[id].intent, req.principal.subject, req.now)
  {
    hide Curate, CurationOf;
    var intent := db.work.proposals[id].intent;
    var key, diff := intent.resource, intent.diff;
    match intent.proposalType
    case AssetCuration =>
      var asset := AssignFields(db.work.catalog.assets[key], diff, id, req.principal.subject, req.now);
      db.work := db.work.(catalog := db.work.catalog.(assets := db.work.catalog.assets[key := asset]));
    case CertificationReview =>
      var note := if "note" in diff && diff["note"].JText? then Some(diff["note"].text) else None;
      db.work := db.work.(certifications := db.work.certifications +
                          [CertificationRequest(key, intent.initiator, note)]);
    case QualitySchedule =>
      var schedule := if "schedule" in diff then diff["schedule"] else JNull;
      db.work := db.work.(schedules := db.work.schedules + [ScheduleRequest(id, key, intent.initiator, schedule)]);
  }

  lemma TypedChangeIgnoresRows(db: Db, proposals: seq<Proposal>, id: nat, intent: Intent, actor: string, now: int)
    requires intent.resource in db.catalog.assets
    ensures TypedChange(db.(proposals := proposals), id, intent, actor, now) ==
            TypedChange(db, id, intent, actor, now).(proposals := proposals)
  {
  }

  lemma AttemptsDoNotConfirm(p: Proposal, req: Request, hash: Sent, nonce: string)
    ensures ConfirmationError(Attempted(p), req, hash, nonce) == ConfirmationError(p, req, hash, nonce)
  {
  }

  const DENIED := WorkflowError(403, "proposal_reauthorization_denied")

  /** The last recheck: the audited policy decision, and the block if it is not ALLOW. */
  method Reauthorize(db: Session, req: Request, id: nat, f: Faults) returns (raised: Option<Error>)
    requires id < |db.committed.proposals|
    requires db.work == db.committed.(proposals := db.committed.proposals[id := Attempted(db.committed.proposals[id])])
    modifies db
    ensures var c0, w0 := old(db.committed), old(db.work);
      if !PolicyFails(req, f) && Decide(c0.catalog, req, ProposalExecute, c0.proposals[id].intent.resource) == Allow
      then raised.None? && db.committed == c0 && db.work == w0.(audit := Audited(c0, req, id).audit)
      else if PolicyFails(req, f) || BlockFails(req, f) then raised == Some(OtherError) && db.committed == c0
      else raised == Some(DENIED) && db.work == db.committed == Blocking(Audited(c0, req, id), req, id, DENIED.code)
  {
    hide Decide, PolicyEvent;
    var key := db.work.proposals[id].intent.resource;
    var decision := EvaluatePolicy(db, req, ProposalExecute, "governance.proposal.execute", key, PolicyFails(req, f));
    if decision.Err? { return Some(OtherError); }
    if decision.value != Allow {
      var ok := BlockExecution(db, req, id, DENIED.code, BlockFails(req, f));
      return Some(if ok then DENIED else OtherError);
    }
    raised := None;
  }

  /** What a recheck that came to a verdict has raised, committed and left in the session. */
  ghost predicate Concluded(c0: Db, w0: Db, db: Session, v: Verdict, raised: Option<Error>, req: Request, id: nat,
        f: Faults)
    requires id < |c0.proposals|
    reads db
  {
    match v
    case Refuse(e) => raised == Some(e) && e.WorkflowError? && db.committed == c0 && db.work == w0
    case Raise => raised == Some(OtherError) && db.committed == c0
    case Block(e, onTheSpot, afterPolicy) =>
      if onTheSpot && ((afterPolicy && PolicyFails(req, f)) || BlockFails(req, f))
      then raised == Some(OtherError) && db.committed == c0
      else raised == Some(e) && e.WorkflowError? && if onTheSpot
        then db.work == db.committed == Blocking(if afterPolicy then Audited(c0, req, id) else c0, req, id, e.code)
        else db.committed == c0 && db.work == w0
    case Apply =>
      db.committed == c0 && if PolicyFails(req, f) then raised == Some(OtherError)
      else raised.None? && db.work == w0.(audit := Audited(c0, req, id).audit)
  }

  /** Expiry, status, approver, hash, nonce and the confirmation window. */
  method RecheckConfirmation(db: Session, req: Request, id: nat, hash: Sent, nonce: string, f: Faults)
    returns (raised: Option<Error>)
    requires Steward(req.principal) && Found(db.committed, req, id)
    requires db.work == db.committed.(proposals := db.committed.proposals[id := Attempted(db.committed.proposals[id])])
    modifies db
    ensures var v := Verify(old(db.committed), req, id, hash, nonce);
      if raised.Some? then Concluded(old(db.committed), old(db.work), db, v, raised, req, id, f)
      else db.committed == old(db.committed) && db.work == old(db.work) && v == VerifyResource(db.committed, req, id)
  {
    hide VerifyResource, ConfirmationError, Steward, Record, Audited;
    AttemptsDoNotConfirm(db.committed.proposals[id], req, hash, nonce);
    var expired := ExpireIfDue(db, db.committed.proposals, id, req.now);
    if expired {
      var ok := BlockExecution(db, req, id, "proposal_expired", BlockFails(req, f));
      return Some(if ok then WorkflowError(409, "proposal_expired") else OtherError);
    }
    var p := db.work.proposals[id];
    if p.status != Approved { return Some(WorkflowError(409, "proposal_not_approved")); }
    var unconfirmed := ConfirmationError(p, req, hash, nonce);
    if unconfirmed.Some? { return unconfirmed; }
    if p.confirmBy.None? || p.confirmBy.value <= req.now {
      var ok := BlockExecution(db, req, id, "confirmation_nonce_expired", BlockFails(req, f));
      return Some(if ok then WorkflowError(409, "confirmation_nonce_expired") else OtherError);
    }
    raised := None;
  }

  /** Resource, version and the audited policy decision. */
  method RecheckResource(db: Session, req: Request, id: nat, f: Faults) returns (raised: Option<Error>)
    requires id < |db.committed.proposals|
    requires db.work == db.committed.(proposals := db.committed.proposals[id := Attempted(db.committed.proposals[id])])
    modifies db
    ensures Concluded(old(db.committed), old(db.work), db, VerifyResource(old(db.committed), req, id), raised,
                      req, id, f)
  {
    hide Decide, ExpectedVersion, PolicyEvent, Record, Blocking;
    var p := db.work.proposals[id];
    var key := p.intent.resource;
    if !Visible(db.work.catalog, key, req.tenant) { return Some(WorkflowError(404, "proposal_resource_not_found")); }
    if ExpectedVersion(p.intent.preconditions) != Some(db.work.catalog.assets[key].version) {
      return Some(WorkflowError(409, "proposal_precondition_failed"));
    }
    raised := Reauthorize(db, req, id, f);
  }

  /** The first half of execute's `try`: every recheck, down to the audited policy decision. */
  method Recheck(db: Session, req: Request, id: nat, hash: Sent, nonce: string, f: Faults)
    returns (raised: Option<Error>)
    requires Steward(req.principal) && Found(db.committed, req, id)
    requires db.work == db.committed.(proposals := db.committed.proposals[id := Attempted(db.committed.proposals[id])])
    modifies db
    ensures Concluded(old(db.committed), old(db.work), db, Verify(old(db.committed), req, id, hash, nonce), raised,
                      req, id, f)
  {
    hide Verify, VerifyResource, Steward, Blocking, Audited;
    raised := RecheckConfirmation(db, req, id, hash, nonce, f);
    if raised.None? { raised := RecheckResource(db, req, id, f); }
  }

  /** The second half: the change, the terminal transition and its audit event in one commit. */
  method Confirm(db: Session, req: Request, id: nat, f: Faults) returns (raised: Option<Error>)
    requires id < |db.committed.proposals| && db.committed.proposals[id].intent.resource in db.committed.catalog.assets
    requires db.work == Audited(db.committed, req, id).(
      proposals := db.committed.proposals[id := Attempted(db.committed.proposals[id])])
    modifies db
    ensures var c0, intent := old(db.committed), old(db.committed).proposals[id].intent;
      var fails := f.store || Unstorable(c0.domains, intent);
      && db.committed == (if fails then c0 else Executing(c0, req, id))
      && raised == if fails || f.refresh then Some(OtherError) else None
  {
    hide TypedChange, Unstorable;
    var p := db.work.proposals[id];
    TypedChangeIgnoresRows(Audited(db.committed, req, id), db.work.proposals, id, p.intent,
                           req.principal.subject, req.now);
    ApplyTypedChange(db, req, id);
    p := db.work.proposals[id];
    p := p.(status := Executed, outcome := Some("executed"), executedBy := Some(req.principal.subject),
            executedAt := Some(req.now));
    p := p.(nonceDigest := None, confirmBy := None);
    Put(db, db.committed.proposals, id, p);
    RecordTransition(db, db.committed.proposals, req, id, "governance_proposal.execute", "success");
    var ok := db.Commit(f.store || Unstorable(db.work.domains, p.intent));
    raised := if !ok || f.refresh then Some(OtherError) else None;
  }

  /** The handler of a failed recheck: the proposal may not stay silently approved for a later retry. */
  method BlockAfterFailure(db: Session, req: Request, id: nat, raised: Error, f: Faults)
    requires OnlyRow(db.committed.proposals, db, id) && raised.WorkflowError?
    modifies db
    ensures var c0, w0 := old(db.committed), old(db.work);
      db.committed == if w0.proposals[id].status == Approved && !BlockFails(req, f)
        then Record(w0.(proposals := c0.proposals), req, id,
          w0.proposals[id].(status := Blocked, outcome := Some("blocked"), blockedReason := Some(raised.code),
                            nonceDigest := None, confirmBy := None), "governance_proposal.execute", "blocked")
        else c0
  {
    if db.work.proposals[id].status == Approved {
      var ok := BlockExecution(db, req, id, raised.code, BlockFails(req, f));
      if !ok { db.Rollback(); }
    } else {
      db.Rollback();
    }
  }

  lemma VerdictFacts(db: Db, req: Request, id: nat, hash: Sent, nonce: string)
    requires Steward(req.principal) && Found(db, req, id)
    ensures var v := Verify(db, req, id, hash, nonce);
      && (v.Refuse? ==> db.proposals[id].status != Approved)
      && (v.Block? && !v.onTheSpot ==> db.proposals[id].status == Approved && !v.afterPolicy)
      && (v.Apply? ==> db.proposals[id].intent.resource in db.catalog.assets)
  {
  }

  /** The `try`: rechecks and change. */
  method TryExecute(db: Session, req: Request, id: nat, hash: Sent, nonce: string, f: Faults)
    returns (raised: Option<Error>)
    requires db.work == db.committed && Steward(req.principal) && Found(db.committed, req, id)
    modifies db
    ensures var c0 := old(db.committed);
      var v, w0 := Verify(c0, req, id, hash, nonce), c0.(proposals := c0.proposals[id := Attempted(c0.proposals[id])]);
      if !v.Apply? then Concluded(c0, w0, db, v, raised, req, id, f)
      else
        var fails := PolicyFails(req, f) || f.store || Unstorable(c0.domains, c0.proposals[id].intent);
        && db.committed == (if fails then c0 else Executing(c0, req, id))
        && raised == if fails || f.refresh then Some(OtherError) else None
  {
    hide Decide, TypedChange, ExpectedVersion, Unstorable, ConfirmationError, Steward, Executing;
    VerdictFacts(db.committed, req, id, hash, nonce);
    hide Verify;
    Put(db, db.committed.proposals, id, Attempted(db.work.proposals[id]));
    raised := Recheck(db, req, id, hash, nonce, f);
    if raised.None? { raised := Confirm(db, req, id, f); }
  }

  method ExecuteProposal(db: Session, req: Request, id: nat, hash: Sent, nonce: string, f: Faults)
    returns (r: Result<(), Error>)
    requires db.work == db.committed
    modifies db
    ensures (db.committed, r) == Execute(old(db.committed), req, id, hash, nonce, f)
  {
    hide TypedChange, Unstorable, Steward, Executing, PolicyEvent, Decide;
    if !Steward(req.principal) { return Err(WorkflowError(403, "proposal_steward_required")); }
    if !Found(db.work, req, id) { return Err(WorkflowError(404, "proposal_not_found")); }
    VerdictFacts(db.committed, req, id, hash, nonce);
    hide Verify;
    var raised := TryExecute(db, req, id, hash, nonce, f);
    if raised.None? { return Ok(()); }
    if raised == Some(OtherError) {
      db.Rollback();
      return Err(EXECUTION_FAILED);
    }
    BlockAfterFailure(db, req, id, raised.value, f);
    r := Err(raised.value);
  }
}
