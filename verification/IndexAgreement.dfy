/** Over any run the search index stays true to the catalog, but for assets that an executed curation
    proposal changed: that is the one operation of the model that does not reindex. */
module IndexAgreement {
  import opened Values
  import opened Columns
  import opened Assets
  import opened SearchIndex
  import opened Store
  import opened Proposals
  import opened Protocol
  import opened Search
  import opened Runs
  import opened Reachable
  import Curation
  import Reconcile

  /** Whatever was fresh is fresh, and whatever is new is fresh, but for `key`. */
  predicate KeepsFresh(c: Catalog, d: Catalog, key: Option<Key>) {
    && c.assets.Keys <= d.assets.Keys
    && forall k | k in d.assets && Some(k) != key && (k in c.assets ==> Fresh(c, k)) :: Fresh(d, k)
  }

  lemma DiscoveryKeepsFresh(c: Catalog, source: string, tenant: string, ds: seq<Discovered>, now: int)
    requires Reconcile.WellFormed(c) && Reconcile.Synchronize(c, source, tenant, ds, now).Ok?
    ensures KeepsFresh(c, Reconcile.Synchronize(c, source, tenant, ds, now).value.catalog, None)
  {
    hide DocumentOf, Reconcile.AbsorbAll, Reconcile.WellFormed;
    var r := Reconcile.Synchronize(c, source, tenant, ds, now).value;
    Reconcile.AbsorbAllIsFramed(Reconcile.Start(c, |ds|), source, tenant,
                                Reconcile.KnownKeys(c, source, tenant), ds, now, r);
  }

  lemma CurationKeepsFresh(db: Db, key: Key, updates: Curated, actor: string, now: int, fails: bool)
    ensures KeepsFresh(db.catalog, Curation.UpdateCuration(db, key, updates, actor, now, fails).catalog, None)
  {
    hide DocumentOf, Curation.Edits, Curation.Edited;
  }

  /** The asset whose document a step leaves behind. */
  function LeftBehind(db: Db, s: Step): Option<Key> {
    if s.event.Governance? && !s.event.call.CreateCall? && s.event.call.id < |db.proposals|
       && ExecutedIn(Next(db, s), s.event.call.id) && !ExecutedIn(db, s.event.call.id)
       && db.proposals[s.event.call.id].intent.proposalType == AssetCuration
    then Some(db.proposals[s.event.call.id].intent.resource) else None
  }

  lemma MovedKeepsFresh(db: Db, r: Db, req: Request, id: nat)
    requires Moved(db, r, req, id)
    ensures var p := db.proposals[id];
      KeepsFresh(db.catalog, r.catalog,
                 if r.proposals[id].status == Executed && p.intent.proposalType == AssetCuration
                 then Some(p.intent.resource) else None)
  {
    hide Tracked, Legal, DocumentOf, Curate, CurationOf, ExpectedVersion, Unstorable;
  }

  lemma NothingKeepsFresh(c: Catalog, key: Option<Key>)
    ensures KeepsFresh(c, c, key)
  {
  }

  lemma MovedFacts(db: Db, r: Db, req: Request, id: nat)
    requires Moved(db, r, req, id)
    ensures id < |db.proposals| == |r.proposals| && !ExecutedIn(db, id)
  {
    hide Tracked, Applied, Untouched;
  }

  lemma ProposedKeepsCatalog(db: Db, r: Db, req: Request, payload: Payload, host: Option<string>)
    requires Proposed(db, r, req, payload, host)
    ensures r.catalog == db.catalog
  {
    hide Tracked, CheckTypeAndDiff;
  }

  lemma CallKeepsFresh(db: Db, s: Step)
    requires s.event.Governance?
    ensures KeepsFresh(db.catalog, Next(db, s).catalog, LeftBehind(db, s))
  {
    hide Commit, Moved, Proposed, KeepsFresh;
    var c, r := s.event.call, Next(db, s);
    EveryCallIsLegal(db, c, s.req, s.faults);
    NothingKeepsFresh(db.catalog, LeftBehind(db, s));
    if r != db {
      if c.CreateCall? {
        ProposedKeepsCatalog(db, r, s.req, c.payload, c.host);
      } else {
        MovedFacts(db, r, s.req, c.id);
        MovedKeepsFresh(db, r, s.req, c.id);
      }
    }
  }

  /** A discovery pass and a direct curation keep every fresh document fresh and index what they add;
      so does every governance call, except for the one asset of an executed curation. */
  lemma StepKeepsFresh(db: Db, s: Step)
    requires Reconcile.WellFormed(db.catalog)
    ensures KeepsFresh(db.catalog, Next(db, s).catalog, LeftBehind(db, s))
  {
    match s.event
    case Governance(_) => CallKeepsFresh(db, s);
    case DirectCuration(key, updates, actor) => CurationKeepsFresh(db, key, updates, actor, s.req.now, s.faults.store);
    case NewDomain(_) =>
    case Discovery(source, found) =>
      hide DocumentOf, Reconcile.Synchronize, Reconcile.WellFormed;
      if Next(db, s) != db { DiscoveryKeepsFresh(db.catalog, source, s.req.tenant, found, s.req.now); }
  }

  lemma CuratesStays(db: Db, s: Step, id: nat, k: Key)
    requires Curates(db, id, k)
    ensures Curates(Next(db, s), id, k)
  {
    hide Next, Tracked, Applied, Untouched;
    RowStep(db, s, id);
  }

  /** In every reachable state an asset without a fresh document is one that an executed curation
      proposal named. */
  lemma {:induction false} StaleOnlyAfterExecution(steps: seq<Step>, k: Key) returns (id: nat)
    requires var c := Run(EMPTY, steps).catalog; k in c.assets && !Fresh(c, k)
    ensures Curates(Run(EMPTY, steps), id, k)
  {
    hide Next, Fresh, Curates, Invariant, LeftBehind;
    var b, s := steps[..|steps| - 1], steps[|steps| - 1];
    var db := Run(EMPTY, b);
    EveryRunIsSound(b);
    InvariantIsWellFormed(db);
    StepKeepsFresh(db, s);
    if k in db.catalog.assets && !Fresh(db.catalog, k) {
      id := StaleOnlyAfterExecution(b, k);
      CuratesStays(db, s, id, k);
    } else {
      id := LeftBehindIsCurated(db, s, k);
    }
  }

  lemma InvariantIsWellFormed(db: Db)
    requires Invariant(db)
    ensures Reconcile.WellFormed(db.catalog)
  {
  }

  lemma LeftBehindIsCurated(db: Db, s: Step, k: Key) returns (id: nat)
    requires LeftBehind(db, s) == Some(k)
    ensures Curates(Next(db, s), id, k)
  {
    hide Next, Tracked, Applied, Untouched;
    id := s.event.call.id;
    RowStep(db, s, id);
  }

  // ---------------------------------------------------------------- no asset without a document

  predicate Covered(c: Catalog) { c.assets.Keys <= c.documents.Keys }

  lemma DiscoveryCovers(c: Catalog, source: string, tenant: string, ds: seq<Discovered>, now: int)
    requires Reconcile.WellFormed(c) && Covered(c) && Reconcile.Synchronize(c, source, tenant, ds, now).Ok?
    ensures Covered(Reconcile.Synchronize(c, source, tenant, ds, now).value.catalog)
  {
    hide DocumentOf, Reconcile.AbsorbAll, Reconcile.WellFormed;
    var r := Reconcile.Synchronize(c, source, tenant, ds, now).value;
    Reconcile.AbsorbAllIsFramed(Reconcile.Start(c, |ds|), source, tenant, Reconcile.KnownKeys(c, source, tenant),
                                ds, now, r);
  }

  lemma CallCovers(db: Db, c: Call, req: Request, f: Faults)
    requires Covered(db.catalog)
    ensures Covered(Commit(db, c, req, f).catalog)
  {
    EveryCallIsLegal(db, c, req, f);
    hide Commit, Tracked, Legal, CheckTypeAndDiff;
  }

  lemma StepCovers(db: Db, s: Step)
    requires Reconcile.WellFormed(db.catalog) && Covered(db.catalog)
    ensures Covered(Next(db, s).catalog)
  {
    hide Commit, DocumentOf, Curation.Edits, Curation.Edited, Storable, Reconcile.Synchronize, Reconcile.WellFormed;
    match s.event
    case Governance(c) => CallCovers(db, c, s.req, s.faults);
    case DirectCuration(_, _, _) =>
    case NewDomain(_) =>
    case Discovery(source, found) =>
      if Next(db, s) != db { DiscoveryCovers(db.catalog, source, s.req.tenant, found, s.req.now); }
  }

  /** In every reachable state every asset has a document: none is ever added twice. */
  lemma {:induction false} EveryAssetHasADocument(steps: seq<Step>)
    ensures Covered(Run(EMPTY, steps).catalog)
  {
    hide Next, Invariant;
    if steps != [] {
      var b := steps[..|steps| - 1];
      EveryAssetHasADocument(b);
      EveryRunIsSound(b);
      InvariantIsWellFormed(Run(EMPTY, b));
      StepCovers(Run(EMPTY, b), steps[|steps| - 1]);
    }
  }
}
