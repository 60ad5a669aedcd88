/** What holds in every state that a run of the catalog can reach, and between any two of them. */
module Reachable {
  import opened Values
  import opened Columns
  import opened Assets
  import opened SearchIndex
  import opened Store
  import opened Policy
  import opened Proposals
  import opened Protocol
  import opened History
  import opened Runs
  import opened Execution
  import Curation
  import Reconcile

  /** The catalog's part of the invariant. */
  ghost predicate Kept(c: Catalog) {
    Reconcile.WellFormed(c) && forall k | k in c.assets :: FullyCurated(c.assets[k])
  }

  /** Nobody but an executed proposal leaves the trace of a proposal. */
  ghost predicate SameTraces(c: Catalog, d: Catalog) {
    forall k, id: nat | k in d.assets ::
      Applications(d.assets[k].history, id) == if k in c.assets then Applications(c.assets[k].history, id) else 0
  }

  lemma OneAssetTraces(c: Catalog, d: Catalog, key: Key, a: Asset, v: Version)
    requires d.assets == c.assets[key := a] && !v.ProposalApplied?
    requires a.history == (if key in c.assets then c.assets[key].history else []) + [v]
             || (key in c.assets && a.history == c.assets[key].history)
    ensures SameTraces(c, d)
  {
  }

  // ---------------------------------------------------------------- discovery

  lemma {:induction false} AbsorbAllTraces(
    s: Reconcile.Synced, source: string, tenant: string, known: set<Key>, ds: seq<Discovered>, now: int,
    r: Reconcile.Synced)
    requires Reconcile.AbsorbAll(s, source, tenant, known, ds, now) == Ok(r)
    ensures SameTraces(s.catalog, r.catalog) && s.catalog.assets.Keys <= r.catalog.assets.Keys
  {
    hide DocumentOf, Merge, Diff, Reconcile.Differs, Applications, Fields;
    if ds != [] {
      var p, d := ds[..|ds| - 1], ds[|ds| - 1];
      var m := Reconcile.AbsorbAll(s, source, tenant, known, p, now).value;
      AbsorbAllTraces(s, source, tenant, known, p, now, m);
      var key := KeyOf(source, d);
      var a := r.catalog.assets[key];
      var row := if key in m.catalog.assets
        then Rediscovered(Reconcile.FieldChanges(m.catalog.assets[key].technical, Fields(d)),
                          Diff(m.catalog.assets[key].columns, d.columns))
        else Created(Fields(d));
      OneAssetTraces(m.catalog, r.catalog, key, a, row);
    }
  }

  lemma DiscoveryKeeps(c: Catalog, source: string, tenant: string, ds: seq<Discovered>, now: int)
    requires Kept(c) && Reconcile.Synchronize(c, source, tenant, ds, now).Ok?
    ensures var d := Reconcile.Synchronize(c, source, tenant, ds, now).value.catalog;
      Kept(d) && SameTraces(c, d) && NeverForgets(c, d)
  {
    hide DocumentOf, Merge, Diff, Reconcile.AbsorbAll, Grows, Descends, Applications;
    var s, known := Reconcile.Start(c, |ds|), Reconcile.KnownKeys(c, source, tenant);
    var r := Reconcile.Synchronize(c, source, tenant, ds, now).value;
    Reconcile.AbsorbAllIsFramed(s, source, tenant, known, ds, now, r);
    AbsorbAllTraces(s, source, tenant, known, ds, now, r);
    AbsorbAllGrows(s, source, tenant, known, ds, now, r);
    forall k | k in r.catalog.assets ensures FullyCurated(r.catalog.assets[k]) {
      if k !in c.assets { NoCurationIsFull(r.catalog.assets[k]); }
    }
  }

  lemma NoCurationIsFull(a: Asset)
    requires a.curated == NO_CURATION
    ensures FullyCurated(a)
  {
    forall f: CuratedField ensures f in a.curated {
      match f case Description => case Tags => case Owner => case Classification => case DomainId => case Lifecycle =>
    }
  }

  // ---------------------------------------------------------------- direct curation

  lemma KeptAt(c: Catalog, key: Key)
    requires Kept(c) && key in c.assets
    ensures UniqueNames(c.assets[key].columns) && FullyCurated(c.assets[key])
  {
  }

  lemma CurationKeeps(db: Db, key: Key, updates: Curated, actor: string, now: int, fails: bool)
    requires Kept(db.catalog)
    ensures var r := Curation.UpdateCuration(db, key, updates, actor, now, fails);
      && Kept(r.catalog) && SameTraces(db.catalog, r.catalog) && NeverForgets(db.catalog, r.catalog)
      && r == db.(catalog := r.catalog)
  {
    var r := Curation.UpdateCuration(db, key, updates, actor, now, fails);
    hide DocumentOf, Curation.Edits, Curation.Afters, Curation.Edited, Storable, Kept, FullyCurated, UniqueNames,
         SameTraces, NeverForgets;
    if r == db {
      NothingHappens(db.catalog);
    } else {
      var a, b := db.catalog.assets[key], Curation.Edited(db.catalog.assets[key], updates, actor, now);
      KeptAt(db.catalog, key);
      EditedShape(a, updates, actor, now);
      OneAssetKept(db.catalog, r.catalog, key, b);
      OneAssetTraces(db.catalog, r.catalog, key, b, Version.Curation(Curation.Edits(a, updates), actor));
      EditedGrows(a, updates, actor, now);
      OneAssetGrows(db.catalog, r.catalog, key, b);
    }
  }

  lemma EditedShape(a: Asset, updates: Curated, actor: string, now: int)
    ensures var b := Curation.Edited(a, updates, actor, now);
      && b.history == a.history + [Version.Curation(Curation.Edits(a, updates), actor)] && b.columns == a.columns
      && (FullyCurated(a) ==> FullyCurated(b))
  {
    hide Curation.Edits;
  }

  lemma NothingHappens(c: Catalog)
    ensures NeverForgets(c, c) && SameTraces(c, c)
  {
  }

  // ---------------------------------------------------------------- governance

  lemma CallKeepsCatalog(db: Db, c: Call, req: Request, f: Faults)
    requires Kept(db.catalog)
    ensures Kept(Commit(db, c, req, f).catalog) && NeverForgets(db.catalog, Commit(db, c, req, f).catalog)
  {
    EveryCallIsLegal(db, c, req, f);
    var r := Commit(db, c, req, f);
    hide Commit;
    if r.catalog == db.catalog {
      NothingHappens(db.catalog);
    } else {
      var p := db.proposals[c.id];
      assert Applied(db, r, req, c.id);
      TypedChangeKeeps(db, c.id, p.intent, req.principal.subject, req.now);
    }
  }

  lemma TypedChangeKeeps(db: Db, id: nat, intent: Intent, actor: string, now: int)
    requires Kept(db.catalog) && intent.resource in db.catalog.assets
    ensures Kept(TypedChange(db, id, intent, actor, now).catalog)
    ensures NeverForgets(db.catalog, TypedChange(db, id, intent, actor, now).catalog)
  {
    hide Grows, Descends, Curate, CurationOf, FullyCurated, UniqueNames;
    var key, a := intent.resource, db.catalog.assets[intent.resource];
    var b := Curate(a, CurationOf(intent.diff), id, actor, now);
    CurateGrows(a, CurationOf(intent.diff), id, actor, now);
    CurateKeeps(a, CurationOf(intent.diff), id, actor, now);
    if intent.proposalType == AssetCuration {
      OneAssetKept(db.catalog, TypedChange(db, id, intent, actor, now).catalog, key, b);
      hide Kept, TypedChange;
      OneAssetGrows(db.catalog, TypedChange(db, id, intent, actor, now).catalog, key, b);
    } else {
      NothingHappens(db.catalog);
    }
  }

  lemma OneAssetKept(c: Catalog, d: Catalog, key: Key, a: Asset)
    requires Kept(c) && d.assets == c.assets[key := a] && UniqueNames(a.columns) && FullyCurated(a)
    ensures Kept(d)
  {
  }

  lemma CurateKeeps(a: Asset, changes: Curated, id: nat, actor: string, now: int)
    ensures var b := Curate(a, changes, id, actor, now);
      (FullyCurated(a) ==> FullyCurated(b)) && b.columns == a.columns
  {
  }

  // ---------------------------------------------------------------- every step, every run

  /** The invariant by its parts. */
  lemma InvariantParts(db: Db)
    ensures Invariant(db) ==> Kept(db.catalog) && AppliedOnce(db)
  {
    hide Sound, Accounted, AppliedOnce, FullyCurated, Reconcile.WellFormed;
  }

  lemma CreationKeepsInvariant(db: Db, r: Db, req: Request, payload: Payload, host: Option<string>)
    requires Invariant(db) && Proposed(db, r, req, payload, host) && Kept(r.catalog)
    ensures Invariant(r)
  {
    hide Sound, Accounted, AppliedOnce, Proposed;
    ProposedKeepsRows(db, r, req, payload, host);
    ProposedKeepsTraces(db, r, req, payload, host);
  }

  lemma MoveKeepsInvariant(db: Db, r: Db, req: Request, id: nat)
    requires Invariant(db) && Moved(db, r, req, id) && Kept(r.catalog)
    ensures Invariant(r)
  {
    hide Sound, Accounted, AppliedOnce, Moved;
    MovedKeepsAudit(db, r, req, id);
    MovedKeepsTraces(db, r, req, id);
  }

  lemma CallKeepsInvariant(db: Db, c: Call, req: Request, f: Faults)
    requires Invariant(db)
    ensures Invariant(Commit(db, c, req, f))
  {
    InvariantParts(db);
    EveryCallIsLegal(db, c, req, f);
    CallKeepsCatalog(db, c, req, f);
    var r := Commit(db, c, req, f);
    hide Commit, Invariant, Moved, Proposed;
    if r != db {
      if c.CreateCall? {
        CreationKeepsInvariant(db, r, req, c.payload, c.host);
      } else {
        MoveKeepsInvariant(db, r, req, c.id);
      }
    }
  }

  lemma SameProposalsKeepInvariant(db: Db, catalog: Catalog)
    requires Invariant(db) && Kept(catalog) && SameTraces(db.catalog, catalog)
    requires db.catalog.assets.Keys <= catalog.assets.Keys
    ensures Invariant(db.(catalog := catalog))
  {
    hide Sound, FullyCurated, UniqueNames, CountDone, Transitions;
    var r := db.(catalog := catalog);
    assert forall id: nat | Accounted(db, id) :: Accounted(r, id);
    assert forall k: Key, id: nat :: Curates(r, id, k) == Curates(db, id, k);
    assert forall id: nat, t: ProposalType :: Done(r, id, t) == Done(db, id, t);
    hide Accounted, Curates, Done;
  }

  lemma StepKeepsInvariant(db: Db, s: Step)
    requires Invariant(db)
    ensures Invariant(Next(db, s)) && NeverForgets(db.catalog, Next(db, s).catalog)
  {
    hide Sound, Accounted, Commit, Reconcile.Synchronize, Curation.UpdateCuration;
    match s.event
    case Governance(c) =>
      CallKeepsInvariant(db, c, s.req, s.faults);
      CallKeepsCatalog(db, c, s.req, s.faults);
    case DirectCuration(key, updates, actor) =>
      CurationKeeps(db, key, updates, actor, s.req.now, s.faults.store);
      SameProposalsKeepInvariant(db, Next(db, s).catalog);
    case Discovery(source, found) =>
      if Next(db, s) == db {
        NothingHappens(db.catalog);
      } else {
        DiscoveryKeeps(db.catalog, source, s.req.tenant, found, s.req.now);
        SameProposalsKeepInvariant(db, Next(db, s).catalog);
      }
    case NewDomain(domain) =>
      NothingHappens(db.catalog);
      DomainsDoNotMatter(db, db.domains + {domain});
  }

  lemma DomainsDoNotMatter(db: Db, domains: set<string>)
    requires Invariant(db)
    ensures Invariant(db.(domains := domains))
  {
    hide Sound, FullyCurated, UniqueNames, CountDone, Transitions;
    var r := db.(domains := domains);
    assert forall id: nat | Accounted(db, id) :: Accounted(r, id);
    assert forall k: Key, id: nat :: Curates(r, id, k) == Curates(db, id, k);
    assert forall id: nat, t: ProposalType :: Done(r, id, t) == Done(db, id, t);
    hide Accounted, Curates, Done;
  }

  lemma EmptyIsInvariant()
    ensures Invariant(EMPTY)
  {
  }

  /** Safety over whole runs: in every reachable state each proposal row is sound and accounted for on
      the audit trail, each executed proposal left exactly one trace of its change, and every asset
      descends from its creation row. */
  lemma {:induction false} EveryRunIsSound(steps: seq<Step>)
    ensures Invariant(Run(EMPTY, steps)) && NeverForgets(EMPTY.catalog, Run(EMPTY, steps).catalog)
  {
    hide Invariant, Next, NeverForgets;
    if steps == [] {
      EmptyIsInvariant();
      NothingHappens(EMPTY.catalog);
    } else {
      var p := steps[..|steps| - 1];
      EveryRunIsSound(p);
      StepKeepsInvariant(Run(EMPTY, p), steps[|steps| - 1]);
      CatalogGrowthComposes(EMPTY.catalog, Run(EMPTY, p).catalog, Run(EMPTY, steps).catalog);
    }
  }

  /** The history of every asset of every reachable state is faithful. */
  lemma EveryHistoryIsFaithful(steps: seq<Step>, key: Key)
    requires key in Run(EMPTY, steps).catalog.assets
    ensures var a := Run(EMPTY, steps).catalog.assets[key];
      && a.history != [] && a.history[0].Created? && a.version == DiscoveryRows(a.history)
      && exists columns: map<string, Column> ::
           var birth := Snapshot(a.history[0].fields, columns, NO_CURATION);
           && FitsAll(birth, a.history[1..])
           && RedoAll(birth, a.history[1..]) == SnapshotOf(a)
           && UndoAll(SnapshotOf(a), a.history[1..]) == birth
  {
    EveryRunIsSound(steps);
    hide Run, Invariant, Descends, FitsAll, RedoAll, UndoAll, SnapshotOf, DiscoveryRows, FullyCurated;
    HistoryIsFaithful(Run(EMPTY, steps).catalog.assets[key]);
  }

  // ---------------------------------------------------------------- between two states

  /** One step leaves a row as it is, or is the governance call that moves it legally. */
  lemma RowStep(db: Db, s: Step, id: nat)
    requires id < |db.proposals|
    ensures var r := Next(db, s);
      && id < |r.proposals|
      && (r.proposals[id] == db.proposals[id] || (s.event.Governance? && Moved(db, r, s.req, id)))
  {
    hide Commit, Tracked, Legal, Untouched, CheckTypeAndDiff;
    if s.event.Governance? {
      var c, r := s.event.call, Next(db, s);
      EveryCallIsLegal(db, c, s.req, s.faults);
      if r != db && c.CreateCall? {
        assert r.proposals[..|db.proposals|][id] == db.proposals[id];
      }
    }
  }

  /** The committed changes of one row along a run. */
  function Moves(db: Db, steps: seq<Step>, id: nat): nat {
    if steps == [] then 0
    else
      var before, after := Run(db, steps[..|steps| - 1]), Run(db, steps);
      Moves(db, steps[..|steps| - 1], id) +
      if id < |before.proposals| && id < |after.proposals| && before.proposals[id] != after.proposals[id] then 1 else 0
  }

  /** From any sound state on: what a proposal says never changes, a terminal proposal never changes at
      all, each committed change climbs the ranks (so there are at most two), and each leaves exactly
      one audit event, except the lazy expiry, which leaves none. */
  lemma {:induction false} ProposalsOnlyAdvance(db: Db, steps: seq<Step>, id: nat)
    requires Invariant(db) && id < |db.proposals|
    ensures var r := Run(db, steps);
      && Invariant(r) && id < |r.proposals|
      && var p, q := db.proposals[id], r.proposals[id];
      && SameProposal(p, q)
      && (Terminal(p.status) ==> q == p)
      && Moves(db, steps, id) + Rank(p.status) <= Rank(q.status) <= 2
      && Transitions(r.audit, id) + (if q.status == Expired then 1 else 0) ==
         Transitions(db.audit, id) + Moves(db, steps, id) + (if p.status == Expired then 1 else 0)
  {
    hide Next, Invariant, Moved, Transitions;
    if steps != [] {
      var b, s := steps[..|steps| - 1], steps[|steps| - 1];
      var m := Run(db, b);
      ProposalsOnlyAdvance(db, b, id);
      RowStep(m, s, id);
      StepKeepsInvariant(m, s);
      OneStepAdvances(m, Next(m, s), s.req, id);
    }
  }

  lemma OneStepAdvances(m: Db, r: Db, req: Request, id: nat)
    requires Invariant(m) && Invariant(r) && id < |m.proposals| && id < |r.proposals|
    requires r.proposals[id] == m.proposals[id] || Moved(m, r, req, id)
    ensures var p, q := m.proposals[id], r.proposals[id];
      && SameProposal(p, q) && (Terminal(p.status) ==> q == p)
      && (q != p ==> Rank(q.status) > Rank(p.status))
      && Transitions(r.audit, id) + (if q.status == Expired then 1 else 0) ==
         Transitions(m.audit, id) + (if q != p then 1 else 0) + (if p.status == Expired then 1 else 0)
  {
    assert Accounted(m, id) && Accounted(r, id);
    var p, q := m.proposals[id], r.proposals[id];
    assert Sound(p);
    if q != p { LegalKeepsSound(p, q, req); }
  }

  // ---------------------------------------------------------------- at most once

  /** The k-th step of a run is the one that executes proposal id. */
  predicate ExecutesAt(steps: seq<Step>, k: nat, id: nat) {
    && k < |steps|
    && var before, after := Run(EMPTY, steps[..k]), Run(EMPTY, steps[..k + 1]);
    && id < |before.proposals| && id < |after.proposals|
    && before.proposals[id].status != Executed && after.proposals[id].status == Executed
  }

  predicate ExecutedIn(db: Db, id: nat) { id < |db.proposals| && db.proposals[id].status == Executed }

  lemma PrefixStep(steps: seq<Step>, k: nat)
    requires k < |steps|
    ensures Run(EMPTY, steps[..k + 1]) == Next(Run(EMPTY, steps[..k]), steps[k])
  {
    assert steps[..k + 1][..k] == steps[..k];
  }

  lemma MovedIsNotExecuted(m: Db, r: Db, req: Request, id: nat)
    requires Moved(m, r, req, id)
    ensures !ExecutedIn(m, id)
  {
    hide Tracked, Untouched, Applied, Steward;
  }

  lemma ProposedIsNotExecuted(db: Db, r: Db, req: Request, payload: Payload, host: Option<string>, id: nat)
    requires Proposed(db, r, req, payload, host)
    ensures ExecutedIn(r, id) ==> id < |db.proposals|
  {
    hide Tracked, CheckTypeAndDiff, DiffError, PreconditionError, Steward;
  }

  lemma MovedKeepsLength(db: Db, r: Db, req: Request, id: nat)
    requires Moved(db, r, req, id)
    ensures |r.proposals| == |db.proposals|
  {
    hide Tracked, Legal, Applied, Untouched;
  }

  lemma BornUnexecuted(db: Db, s: Step, id: nat)
    ensures ExecutedIn(Next(db, s), id) ==> id < |db.proposals|
  {
    hide Commit, Moved, Proposed;
    if s.event.Governance? {
      var c, r := s.event.call, Next(db, s);
      EveryCallIsLegal(db, c, s.req, s.faults);
      if r != db {
        if c.CreateCall? {
          ProposedIsNotExecuted(db, r, s.req, c.payload, c.host, id);
        } else {
          MovedKeepsLength(db, r, s.req, c.id);
        }
      }
    } else {
      NotGovernedKeepsRows(db, s);
    }
  }

  lemma NotGovernedKeepsRows(db: Db, s: Step)
    requires !s.event.Governance?
    ensures Next(db, s).proposals == db.proposals
  {
    hide Reconcile.Synchronize, Curation.Edits, Curation.Edited, Storable;
  }

  /** EXECUTED is absorbing, and no proposal is born executed. */
  lemma ExecutedStep(db: Db, s: Step, id: nat)
    ensures ExecutedIn(db, id) ==> ExecutedIn(Next(db, s), id)
    ensures ExecutedIn(Next(db, s), id) ==> id < |db.proposals|
  {
    BornUnexecuted(db, s, id);
    hide Next, Moved;
    if ExecutedIn(db, id) {
      RowStep(db, s, id);
      if Moved(db, Next(db, s), s.req, id) { MovedIsNotExecuted(db, Next(db, s), s.req, id); }
    }
  }

  lemma {:induction false} ExecutedStays(steps: seq<Step>, k: nat, l: nat, id: nat)
    requires k <= l <= |steps| && ExecutedIn(Run(EMPTY, steps[..k]), id)
    ensures ExecutedIn(Run(EMPTY, steps[..l]), id)
    decreases l
  {
    hide Run, Next, ExecutedIn;
    if k < l {
      ExecutedStays(steps, k, l - 1, id);
      PrefixStep(steps, l - 1);
      ExecutedStep(Run(EMPTY, steps[..l - 1]), steps[l - 1], id);
    }
  }

  lemma NotAtStart(steps: seq<Step>, id: nat)
    ensures !ExecutedIn(Run(EMPTY, steps[..0]), id)
  {
  }

  lemma {:induction false} ExecutedSomewhere(steps: seq<Step>, n: nat, id: nat) returns (k: nat)
    requires n <= |steps| && ExecutedIn(Run(EMPTY, steps[..n]), id)
    ensures k < n && ExecutesAt(steps, k, id)
  {
    hide Run, Next;
    NotAtStart(steps, id);
    PrefixStep(steps, n - 1);
    var before := Run(EMPTY, steps[..n - 1]);
    if ExecutedIn(before, id) {
      k := ExecutedSomewhere(steps, n - 1, id);
    } else {
      k := n - 1;
      ExecutedStep(before, steps[n - 1], id);
    }
  }

  /** The step is an execution call for this proposal, confirmed with its hash and its live nonce by the
      steward who approved it, in time and at the right version, and it made the checked change. */
  predicate RightfullyExecuted(before: Db, after: Db, s: Step, id: nat) {
    var req := s.req;
    && s.event.Governance? && s.event.call.ExecuteCall? && s.event.call.id == id
    && Confirmed(before, req, id, s.event.call.hash, s.event.call.nonce)
    && Moved(before, after, req, id) && after.proposals[id].status == Executed
    && Sound(before.proposals[id]) && Steward(req.principal) && Applied(before, after, req, id)
  }

  /** At most once: in every run, each EXECUTED proposal was executed by exactly one step, and only an
      EXECUTED proposal was. That step's caller had approved the proposal and confirmed it with its hash and
      live nonce, both deadlines lay ahead, and what the step did to the rest of the database is the
      change checked at creation, at the version it was checked for. */
  lemma ExecutedExactlyOnce(steps: seq<Step>, id: nat)
    ensures ExecutedIn(Run(EMPTY, steps), id) <==> exists k: nat :: ExecutesAt(steps, k, id)
    ensures forall k: nat, l: nat :: ExecutesAt(steps, k, id) && ExecutesAt(steps, l, id) ==> k == l
    ensures forall k: nat | ExecutesAt(steps, k, id) ::
      RightfullyExecuted(Run(EMPTY, steps[..k]), Run(EMPTY, steps[..k + 1]), steps[k], id)
  {
    hide Run, Next, Moved, Sound;
    assert steps[..|steps|] == steps;
    if ExecutedIn(Run(EMPTY, steps), id) { var k := ExecutedSomewhere(steps, |steps|, id); }
    forall k: nat | ExecutesAt(steps, k, id)
      ensures ExecutedIn(Run(EMPTY, steps), id)
      ensures forall l: nat | k < l :: !ExecutesAt(steps, l, id)
      ensures RightfullyExecuted(Run(EMPTY, steps[..k]), Run(EMPTY, steps[..k + 1]), steps[k], id)
    {
      ExecutionIsRightful(steps, k, id);
      ExecutedStays(steps, k + 1, |steps|, id);
      forall l: nat | k < l < |steps| ensures !ExecutesAt(steps, l, id) { ExecutedStays(steps, k + 1, l, id); }
    }
  }

  lemma ExecutionIsRightful(steps: seq<Step>, k: nat, id: nat)
    requires ExecutesAt(steps, k, id)
    ensures RightfullyExecuted(Run(EMPTY, steps[..k]), Run(EMPTY, steps[..k + 1]), steps[k], id)
  {
    var db := Run(EMPTY, steps[..k]);
    PrefixStep(steps, k);
    EveryRunIsSound(steps[..k]);
    hide Run;
    RowStep(db, steps[k], id);
    OnlyConfirmedExecutes(db, steps[k].event.call, steps[k].req, steps[k].faults, id);
    hide Next, Commit, Confirmed, Applied, Untouched, Tracked, NeverForgets, Accounted, AppliedOnce, DiffError,
         PreconditionError;
  }

  /** An executed curation changes one asset, and of that asset the description, tags, owner and domain
      that the diff names, the curation time, and one version row that remembers what it replaced. */
  lemma ExecutedCurationIsBounded(before: Db, after: Db, s: Step, id: nat)
    requires RightfullyExecuted(before, after, s, id) && before.proposals[id].intent.proposalType == AssetCuration
    ensures var intent := before.proposals[id].intent;
      var key, diff := intent.resource, intent.diff;
      && key in before.catalog.assets && key in after.catalog.assets
      && var a, b := before.catalog.assets[key], after.catalog.assets[key];
      && after == before.(catalog := before.catalog.(assets := before.catalog.assets[key := b]),
                          proposals := after.proposals, audit := after.audit)
      && b == a.(curated := b.curated, curatedAt := Some(s.req.now), history := b.history)
      && (forall f :: f in b.curated <==> f in a.curated || (f in CURATION_FIELDS && FieldName(f) in diff))
      && (forall f | f in b.curated ::
            b.curated[f] == if f in CURATION_FIELDS && FieldName(f) in diff then diff[FieldName(f)] else a.curated[f])
      && (forall n | n in diff :: exists f | f in CURATION_FIELDS :: FieldName(f) == n)
      && b.history == a.history + [b.history[|a.history|]] && b.history[|a.history|].ProposalApplied?
      && b.history[|a.history|].proposal == id && b.history[|a.history|].actor == s.req.principal.subject
  {
    hide Tracked, Legal, Unstorable, ExpectedVersion, BoundedText, Steward, Restrict;
    var diff := before.proposals[id].intent.diff;
    forall n | n in diff ensures exists f | f in CURATION_FIELDS :: FieldName(f) == n {
      assert n in {"description", "tags", "owner", "domain_id"};
      var j := if n == "description" then 0 else if n == "tags" then 1 else if n == "owner" then 2 else 3;
      assert FieldName(CURATION_FIELDS[j]) == n;
    }
  }

  /** An executed certification review or schedule leaves the catalog as it was and files exactly one
      request, in the initiator's name, with what the checked diff says. */
  lemma ExecutedRequestIsFiled(before: Db, after: Db, s: Step, id: nat)
    requires RightfullyExecuted(before, after, s, id) && before.proposals[id].intent.proposalType != AssetCuration
    ensures var intent := before.proposals[id].intent;
      && after.catalog == before.catalog
      && if intent.proposalType == CertificationReview then
           && after.schedules == before.schedules
           && after.certifications == before.certifications + [after.certifications[|before.certifications|]]
           && var filed := after.certifications[|before.certifications|];
           && filed.asset == intent.resource && filed.requestedBy == intent.initiator
           && (filed.note.Some? <==> "note" in intent.diff)
           && (filed.note.Some? ==> intent.diff["note"] == JText(filed.note.value))
         else
           && after.certifications == before.certifications
           && after.schedules == before.schedules + [after.schedules[|before.schedules|]]
           && var filed := after.schedules[|before.schedules|];
           && filed.proposal == id && filed.asset == intent.resource && filed.requestedBy == intent.initiator
           && "schedule" in intent.diff && filed.schedule == intent.diff["schedule"] && filed.schedule.JObject?
  {
    hide Tracked, Legal, Unstorable, ExpectedVersion, Steward;
  }

  // ---------------------------------------------------------------- a run into the gap

  lemma FirstAsset(source: string, tenant: string, d: Discovered, now: int)
    requires UniqueNames(d.columns) && RowsTake(d)
    ensures var r := Reconcile.Synchronize(EMPTY.catalog, source, tenant, [d], now);
      r.Ok? && r.value.catalog.assets == map[KeyOf(source, d) := Reconcile.NewAsset(tenant, d, now)]
  {
    hide DocumentOf;
    var s, known := Reconcile.Start(EMPTY.catalog, 1), Reconcile.KnownKeys(EMPTY.catalog, source, tenant);
    assert [d][..0] == [];
    assert Reconcile.AbsorbAll(s, source, tenant, known, [], now) == Ok(s);
  }

  lemma RunOfThree(a: Step, b: Step, c: Step)
    ensures Run(EMPTY, [a, b, c]) == Next(Next(Next(EMPTY, a), b), c)
  {
    hide Next;
    assert [a, b, c][..2] == [a, b] && [a, b][..1] == [a] && [a][..0] == [];
    assert Run(EMPTY, []) == EMPTY && Run(EMPTY, [a]) == Next(EMPTY, a)
      && Run(EMPTY, [a, b]) == Next(Run(EMPTY, [a]), b);
  }

  lemma RunMore(steps: seq<Step>, s: Step)
    ensures Run(EMPTY, steps + [s]) == Next(Run(EMPTY, steps), s)
  {
    hide Next;
    assert (steps + [s])[..|steps|] == steps;
  }

  /** The steps of a steward who discovers an asset, proposes a change and approves it. */
  function StewardRun(req: Request, source: string, d: Discovered, payload: Payload, note: string,
        nonce: string): seq<Step> {
    [Step(Discovery(source, [d]), req, NO_FAULTS),
     Step(Governance(CreateCall(payload, None)), req, NO_FAULTS),
     Step(Governance(ApproveCall(0, note, nonce)), req, NO_FAULTS)]
  }

  /** The execution call with the hash of the proposal. */
  function Confirmation(req: Request, payload: Payload, call: Request, nonce: string): Step {
    Step(Governance(ExecuteCall(0, Ascii(OfIntent(IntentOf(payload, req, None))), nonce)), call, NO_FAULTS)
  }

  /** The steward of the run may propose the change for the asset once it is discovered. */
  predicate Planned(req: Request, source: string, d: Discovered, payload: Payload, note: string) {
    && Steward(req.principal) && req.principal.tenant == req.tenant && UniqueNames(d.columns) && RowsTake(d)
    && payload.resource == KeyOf(source, d) && RowTakes(payload, None) && payload.expiresIn > 0 && Writable(note)
    && CheckTypeAndDiff(payload, Reconcile.NewAsset(req.tenant, d, req.now)).None? && Decidable(req)
  }

  /** After its three steps the proposal is APPROVED and waits for its confirmation. */
  lemma StewardRunEndsApproved(req: Request, source: string, d: Discovered, payload: Payload, note: string,
        nonce: string)
    requires Planned(req, source, d, payload, note)
    ensures var r := Run(EMPTY, StewardRun(req, source, d, payload, note, nonce));
      && |r.proposals| == 1 && r.proposals[0].status == Approved && r.domains == {}
      && r.proposals[0].intent == IntentOf(payload, req, None)
      && Confirmed(r, req, 0, Ascii(OfIntent(IntentOf(payload, req, None))), nonce)
  {
    var steps := StewardRun(req, source, d, payload, note, nonce);
    RunOfThree(steps[0], steps[1], steps[2]);
    assert steps == [steps[0], steps[1], steps[2]];
    FirstStep(req, source, d);
    hide Run, RowTakes, CheckTypeAndDiff, Steward, Reconcile.NewAsset, Auditable;
    GovernedSteps(Next(EMPTY, steps[0]), req, payload, note, nonce);
    hide Next, Confirmed, IntentOf;
  }

  lemma GovernedSteps(db: Db, req: Request, payload: Payload, note: string, nonce: string)
    requires Proposable(db, req, payload, note) && db.proposals == []
    ensures var proposed := Next(db, Step(Governance(CreateCall(payload, None)), req, NO_FAULTS));
      var r := Next(proposed, Step(Governance(ApproveCall(0, note, nonce)), req, NO_FAULTS));
      && |r.proposals| == 1 && r.proposals[0].status == Approved && r.domains == db.domains
      && r.proposals[0].intent == IntentOf(payload, req, None)
      && Confirmed(r, req, 0, Ascii(OfIntent(IntentOf(payload, req, None))), nonce)
  {
    hide Proposable, Create, Approve, Confirmed, IntentOf;
    ApprovedIsConfirmable(db, req, payload, note, nonce);
  }

  lemma FirstStep(req: Request, source: string, d: Discovered)
    requires UniqueNames(d.columns) && RowsTake(d)
    ensures var db := Next(EMPTY, Step(Discovery(source, [d]), req, NO_FAULTS));
      && db == EMPTY.(catalog := db.catalog) && Visible(db.catalog, KeyOf(source, d), req.tenant)
      && db.catalog.assets[KeyOf(source, d)] == Reconcile.NewAsset(req.tenant, d, req.now)
  {
    FirstAsset(source, req.tenant, d, req.now);
    hide Reconcile.Synchronize;
  }

  /** What the first diff of `UnstorableDiffs` comes to. */
  lemma UnknownDomain()
    ensures var diff := map["domain_id" := JText("x")];
      DiffError(AssetCuration, diff).None? && !Storable({}, CurationOf(diff))
  {
    hide DiffError, Storable, CurationOf;
    var diff, owner := map["domain_id" := JText("x")], seq(256, _ => 'o');
    UnstorableDiffs({}, "x", owner);
    assert [diff, map["description" := JText("\0")], map["owner" := JText(owner)]][0] == diff;
  }

  const STEWARD := Request(Principal("s", "t", {DataSteward}), "t", 0, "r")

  const TABLE := Discovered(Table, "a", "a", None, None, None, JObject(map[]), None, None, [])

  /** A proposal to put the table in a domain that nobody created. */
  const REHOME := Payload(AssetCuration, KeyOf("src", TABLE), "home", "home", map["domain_id" := JText("x")], [], map[],
                          map["technical_version" := JInt(1)], "api", None, None, 300)

  /** The gap is reached from the empty database: a discovered table, that proposal, its approval, and its
      confirmed execution, which leaves everything as it was. */
  lemma GapIsReachable()
    ensures var steps := StewardRun(STEWARD, "src", TABLE, REHOME, "ok", "n");
      var r, call := Run(EMPTY, steps), Confirmation(STEWARD, REHOME, STEWARD, "n");
      && |r.proposals| == 1 && r.proposals[0].status == Approved && Run(EMPTY, steps + [call]) == r
      && Confirmed(r, STEWARD, 0, call.event.call.hash, "n")
  {
    UnknownDomain();
    var steps, call := StewardRun(STEWARD, "src", TABLE, REHOME, "ok", "n"),
      Confirmation(STEWARD, REHOME, STEWARD, "n");
    assert Planned(STEWARD, "src", TABLE, REHOME, "ok") by { hide Storable, CurationOf; }
    hide Run, Confirmed, DiffError, Storable, CurationOf, StewardRun, Planned;
    StewardRunEndsApproved(STEWARD, "src", TABLE, REHOME, "ok", "n");
    RunMore(steps, call);
    ConfirmedRaises(Run(EMPTY, steps), STEWARD, call.event.call.hash, "n");
  }

  lemma ConfirmedRaises(db: Db, req: Request, hash: Sent, nonce: string)
    requires Steward(req.principal) && Confirmed(db, req, 0, hash, nonce)
    requires Unstorable(db.domains, db.proposals[0].intent)
    ensures Next(db, Step(Governance(ExecuteCall(0, hash, nonce)), req, NO_FAULTS)) == db
  {
    hide Execute, TooLate, FirstFailure, Steward, Unstorable;
    ExecuteIsDecisive(db, req, 0, hash, nonce);
    ExecuteIsExact(db, req, 0, hash, nonce);
  }

  /** A change that every column takes. */
  const DESCRIBE := REHOME.(diff := map["description" := JText("x")])

  /** So is the other one: a proposal that is approved, and an execution with a wrong nonce and an overlong
      request id. It leaves everything as it was, the right nonce's confirmation open. */
  lemma RetryIsReachable(guess: string, requestId: string)
    requires guess != "n" && |requestId| > 128
    ensures var steps := StewardRun(STEWARD, "src", TABLE, DESCRIBE, "ok", "n");
      var r, call := Run(EMPTY, steps), Confirmation(STEWARD, DESCRIBE, STEWARD.(requestId := requestId), guess);
      && |r.proposals| == 1 && r.proposals[0].status == Approved && Run(EMPTY, steps + [call]) == r
      && Confirmed(r, STEWARD, 0, call.event.call.hash, "n")
      && Execute(r, STEWARD, 0, call.event.call.hash, "n", NO_FAULTS).1.Ok?
  {
    hide Run, Confirmed, StewardRun, Planned, Execute, Unstorable, IntentOf;
    var steps := StewardRun(STEWARD, "src", TABLE, DESCRIBE, "ok", "n");
    var call := Confirmation(STEWARD, DESCRIBE, STEWARD.(requestId := requestId), guess);
    DescribeIsPlanned();
    StewardRunEndsApproved(STEWARD, "src", TABLE, DESCRIBE, "ok", "n");
    RunMore(steps, call);
    WrongNonceStep(Run(EMPTY, steps), STEWARD, call.event.call.hash, "n", guess, requestId);
    ExecuteIsExact(Run(EMPTY, steps), STEWARD, 0, call.event.call.hash, "n");
  }

  lemma WrongNonceStep(db: Db, req: Request, hash: Sent, nonce: string, guess: string, requestId: string)
    requires Steward(req.principal) && Confirmed(db, req, 0, hash, nonce) && guess != nonce && |requestId| > 128
    ensures Next(db, Step(Governance(ExecuteCall(0, hash, guess)), req.(requestId := requestId), NO_FAULTS)) == db
  {
    hide Execute, Confirmed, Steward;
    WrongNonceStaysApproved(db, req, 0, hash, nonce, guess, requestId);
  }

  lemma DescribeIsStorable()
    ensures DiffError(AssetCuration, DESCRIBE.diff).None? && !Unstorable({}, IntentOf(DESCRIBE, STEWARD, None))
  {
    DescriptionIsFine({}, "x");
    hide DiffError, Storable, CurationOf;
  }

  lemma DescribeIsPlanned()
    ensures Planned(STEWARD, "src", TABLE, DESCRIBE, "ok") && Steward(STEWARD.principal) && Decidable(STEWARD)
    ensures !Unstorable({}, IntentOf(DESCRIBE, STEWARD, None))
  {
    DescribeIsStorable();
    hide DiffError, Unstorable, IntentOf;
  }

  lemma DescriptionIsFine(domains: set<string>, text: string)
    requires Writable(text) && |text| <= 10_000
    ensures var diff := map["description" := JText(text)];
      DiffError(AssetCuration, diff).None? && Storable(domains, CurationOf(diff))
  {
    var diff := map["description" := JText(text)];
    assert diff.Keys == {"description"} && diff["description"] == JText(text);
  }
}
