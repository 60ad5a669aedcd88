/** Whole runs of the catalog: governance calls, direct curation and discovery passes by anyone, in any
    order, at any time and with any store failures, starting from an empty database. */
module Runs {
  import opened Values
  import opened Columns
  import opened Assets
  import opened Store
  import opened Policy
  import opened Proposals
  import opened Protocol
  import opened History
  import Curation
  import Reconcile

  datatype Event =
    | Governance(call: Call)
    | DirectCuration(key: Key, updates: Curated, actor: string)
    | Discovery(source: string, found: seq<Discovered>)
    | NewDomain(domain: string)

  datatype Step = Step(event: Event, req: Request, faults: Faults)

  const EMPTY := Db(Catalog(map[], map[]), [], [], [], [], [], map[], {})

  function Next(db: Db, s: Step): Db {
    match s.event
    case Governance(c) => Commit(db, c, s.req, s.faults)
    case DirectCuration(key, updates, actor) =>
      Curation.UpdateCuration(db, key, updates, actor, s.req.now, s.faults.store)
    case Discovery(source, found) =>
      var r := Reconcile.Synchronize(db.catalog, source, s.req.tenant, found, s.req.now);
      if r.Err? || s.faults.store then db else db.(catalog := r.value.catalog)
    case NewDomain(domain) => if s.faults.store then db else db.(domains := db.domains + {domain})
  }

  function Run(db: Db, steps: seq<Step>): Db {
    if steps == [] then db else Next(Run(db, steps[..|steps| - 1]), steps[|steps| - 1])
  }

  // ---------------------------------------------------------------- one proposal row

  predicate Reviewed(s: Status) { s == Rejected || s == Cancelled || s == Executed || s == Blocked }

  /** What holds of every committed row. */
  predicate Sound(p: Proposal) {
    && p.hash == OfIntent(p.intent)
    && DiffError(p.intent.proposalType, p.intent.diff).None? && PreconditionError(p.intent.preconditions).None?
    && (p.nonceDigest.Some? <==> p.status == Approved) && (p.confirmBy.Some? <==> p.status == Approved)
    && (p.nonceDigest.Some? ==> p.nonceDigest.value.OfNonce?)
    && p.approvalVersion <= 1 && (p.approvalVersion == 1 <==> p.approvedBy.Some?)
    && (p.status == PendingReview ==> p.approvalVersion == 0)
    && (p.status == Approved || p.status == Executed ==> p.approvalVersion == 1)
    && (p.executedBy.Some? <==> p.status == Executed)
    && (p.status == Executed ==> p.executedBy == p.approvedBy && p.executedAt.Some? && p.executedAt.value < p.expiresAt)
  }

  lemma LegalKeepsSound(p: Proposal, q: Proposal, req: Request)
    requires Sound(p) && Legal(p, q, req)
    ensures Sound(q) && Rank(q.status) > Rank(p.status)
    ensures q.approvalVersion + (if Reviewed(q.status) then 1 else 0) + (if q.status == Expired then 1 else 0) ==
            p.approvalVersion + 1
  {
  }

  lemma ProposedIsSound(db: Db, r: Db, req: Request, payload: Payload, host: Option<string>)
    requires Proposed(db, r, req, payload, host)
    ensures Sound(r.proposals[|db.proposals|])
  {
  }

  // ---------------------------------------------------------------- audit

  lemma TransitionsOf(before: seq<AuditEvent>, after: seq<AuditEvent>, e: AuditEvent, id: nat)
    requires Appended(before, after, [e]) && e.Transition?
    ensures Transitions(after, id) == Transitions(before, id) + if e.proposal == id then 1 else 0
  {
  }

  /** Every proposal is on the audit trail once for its creation and once for each transition. */
  predicate Accounted(db: Db, id: nat) {
    Transitions(db.audit, id) ==
      if id < |db.proposals| then 1 + db.proposals[id].approvalVersion + if Reviewed(db.proposals[id].status)
      then 1 else 0
      else 0
  }

  // ---------------------------------------------------------------- what was applied

  predicate Done(db: Db, id: nat, t: ProposalType) {
    id < |db.proposals| && db.proposals[id].status == Executed && db.proposals[id].intent.proposalType == t
  }

  predicate Curates(db: Db, id: nat, key: Key) {
    Done(db, id, AssetCuration) && db.proposals[id].intent.resource == key
  }

  function Schedules(rows: seq<ScheduleRequest>, id: nat): nat {
    if rows == [] then 0 else Schedules(rows[..|rows| - 1], id) + if rows[|rows| - 1].proposal == id then 1 else 0
  }

  /** The version rows of one asset that came from a proposal. */
  function Applications(rows: seq<Version>, id: nat): nat {
    if rows == [] then 0
    else
      var v := rows[|rows| - 1];
      Applications(rows[..|rows| - 1], id) + if v.ProposalApplied? && v.proposal == id then 1 else 0
  }

  predicate IsDone(p: Proposal, t: ProposalType) { p.status == Executed && p.intent.proposalType == t }

  function CountDone(ps: seq<Proposal>, t: ProposalType): nat {
    if ps == [] then 0 else CountDone(ps[..|ps| - 1], t) + if IsDone(ps[|ps| - 1], t) then 1 else 0
  }

  /** Each executed proposal left exactly one trace of its kind, and no other proposal left any. */
  ghost predicate AppliedOnce(db: Db) {
    && (forall id: nat :: Schedules(db.schedules, id) == if Done(db, id, QualitySchedule) then 1 else 0)
    && (forall k: Key, id: nat | k in db.catalog.assets ::
          Applications(db.catalog.assets[k].history, id) ==
          if Curates(db, id, k) then 1 else 0)
    && (forall k: Key, id: nat | Curates(db, id, k) :: k in db.catalog.assets)
    && |db.certifications| == CountDone(db.proposals, CertificationReview)
  }

  lemma {:induction false} CountUpdated(ps: seq<Proposal>, id: nat, q: Proposal, t: ProposalType)
    requires id < |ps|
    ensures CountDone(ps[id := q], t) + (if IsDone(ps[id], t) then 1 else 0) ==
      CountDone(ps, t) + if IsDone(q, t) then 1 else 0
  {
    hide IsDone;
    var p := ps[..|ps| - 1];
    if id < |p| {
      CountUpdated(p, id, q, t);
      assert ps[id := q][..|ps| - 1] == p[id := q];
    } else {
      assert ps[id := q][..|ps| - 1] == p;
    }
  }

  /** The invariant of the database. */
  ghost predicate Invariant(db: Db) {
    && (forall id | 0 <= id < |db.proposals| :: Sound(db.proposals[id]))
    && (forall id: nat :: Accounted(db, id))
    && AppliedOnce(db)
    && Reconcile.WellFormed(db.catalog)
    && (forall k | k in db.catalog.assets :: FullyCurated(db.catalog.assets[k]))
  }

  // ---------------------------------------------------------------- preservation by calls

  /** The part of a creation that is about rows and the trail. */
  lemma ProposedShape(db: Db, r: Db, req: Request, payload: Payload, host: Option<string>)
    requires Proposed(db, r, req, payload, host)
    ensures |r.proposals| == |db.proposals| + 1
    ensures forall id | 0 <= id < |db.proposals| :: r.proposals[id] == db.proposals[id]
    ensures Tracked(db.audit, r, req, |db.proposals|)
  {
    hide Tracked, CheckTypeAndDiff, Visible, Untouched;
    forall id | 0 <= id < |db.proposals| ensures r.proposals[id] == db.proposals[id] {
      assert r.proposals[id] == r.proposals[..|db.proposals|][id];
    }
  }

  lemma ProposedKeepsRows(db: Db, r: Db, req: Request, payload: Payload, host: Option<string>)
    requires Invariant(db) && Proposed(db, r, req, payload, host)
    ensures forall id | 0 <= id < |r.proposals| :: Sound(r.proposals[id])
    ensures forall id: nat :: Accounted(r, id)
  {
    hide AppliedOnce;
    ProposedIsSound(db, r, req, payload, host);
    ProposedShape(db, r, req, payload, host);
    hide Proposed, Sound, FullyCurated, Reconcile.WellFormed, AppliedOnce, Transitions;
    forall id: nat ensures Accounted(r, id) {
      assert Accounted(db, id);
      TransitionsOf(db.audit, r.audit, r.audit[|r.audit| - 1], id);
    }
  }

  lemma ProposedKeepsTraces(db: Db, r: Db, req: Request, payload: Payload, host: Option<string>)
    requires AppliedOnce(db) && Proposed(db, r, req, payload, host)
    ensures AppliedOnce(r)
  {
    hide CheckTypeAndDiff, Visible, Tracked;
    var n := |db.proposals|;
    forall id: nat, t: ProposalType, k: Key
      ensures Done(r, id, t) == Done(db, id, t) && Curates(r, id, k) == Curates(db, id, k)
    {
      if id < n { assert r.proposals[id] == r.proposals[..n][id]; }
    }
    assert r.proposals[..|r.proposals| - 1] == db.proposals;
    hide Done, Curates;
  }

  lemma MovedKeepsAudit(db: Db, r: Db, req: Request, id: nat)
    requires Invariant(db) && Moved(db, r, req, id)
    ensures forall j | 0 <= j < |r.proposals| :: Sound(r.proposals[j])
    ensures forall j: nat :: Accounted(r, j)
    ensures Rank(r.proposals[id].status) > Rank(db.proposals[id].status)
  {
    hide AppliedOnce, Applied, Untouched, FullyCurated, Reconcile.WellFormed;
    LegalKeepsSound(db.proposals[id], r.proposals[id], req);
    hide Sound, Legal, Rank;
    forall j: nat ensures Accounted(r, j) {
      assert Accounted(db, j);
      if r.proposals[id].status != Expired { TransitionsOf(db.audit, r.audit, r.audit[|r.audit| - 1], j); }
    }
  }

  /** What a typed change does to the traces. */
  lemma TypedChangeTraces(db: Db, id: nat, intent: Intent, actor: string, now: int)
    requires intent.resource in db.catalog.assets
    ensures var t := TypedChange(db, id, intent, actor, now);
      && (forall j: nat :: Schedules(t.schedules, j) ==
            Schedules(db.schedules, j) + if intent.proposalType == QualitySchedule && j == id then 1 else 0)
      && (forall k: Key, j: nat | k in db.catalog.assets :: Applications(t.catalog.assets[k].history, j) ==
            Applications(db.catalog.assets[k].history, j) +
            if intent.proposalType == AssetCuration && j == id && k == intent.resource then 1 else 0)
      && |t.certifications| == |db.certifications| + if intent.proposalType == CertificationReview then 1 else 0
  {
  }

  /** A move makes at most its own proposal done, and only by executing it. */
  lemma MovedMakesDone(db: Db, r: Db, req: Request, id: nat)
    requires Moved(db, r, req, id)
    ensures r.proposals[id].intent == db.proposals[id].intent
    ensures forall j: nat, t: ProposalType ::
      Done(r, j, t) == (Done(db, j, t) || (j == id && IsDone(r.proposals[id], t)))
    ensures forall j: nat, k: Key ::
      Curates(r, j, k) ==
        (Curates(db, j, k)
         || (j == id && IsDone(r.proposals[id], AssetCuration) && db.proposals[id].intent.resource == k))
    ensures forall t: ProposalType :: !Done(db, id, t)
    ensures forall t: ProposalType ::
      CountDone(r.proposals, t) == CountDone(db.proposals, t) + if IsDone(r.proposals[id], t) then 1 else 0
  {
    hide Applied, Untouched, Tracked, Steward;
    forall t: ProposalType
      ensures CountDone(r.proposals, t) == CountDone(db.proposals, t) + if IsDone(r.proposals[id], t) then 1 else 0
    {
      CountUpdated(db.proposals, id, r.proposals[id], t);
    }
  }

  lemma MovedKeepsTraces(db: Db, r: Db, req: Request, id: nat)
    requires AppliedOnce(db) && Moved(db, r, req, id)
    ensures AppliedOnce(r)
  {
    hide Tracked, Legal, Visible, ExpectedVersion, Unstorable, TypedChange, Done, CountDone;
    MovedMakesDone(db, r, req, id);
    var p := db.proposals[id];
    assert forall k: Key :: !Curates(db, id, k);
    hide Curates;
    if r.proposals[id].status == Executed {
      VisibleIsPresent(db.catalog, p.intent.resource, req.tenant);
      TypedChangeTraces(db, id, p.intent, req.principal.subject, req.now);
    }
  }

  lemma VisibleIsPresent(c: Catalog, key: Key, tenant: string)
    requires Visible(c, key, tenant)
    ensures key in c.assets
  {
  }
}
