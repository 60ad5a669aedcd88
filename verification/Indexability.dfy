/** The search document is a text and takes no NUL; the tags of an asset are JSON and do. Discovery and
    direct curation reindex in their own transaction, the execution of a curation proposal does not. */
module Indexability {
  import opened Values
  import opened Columns
  import opened Assets
  import opened SearchIndex
  import opened Store
  import opened Policy
  import opened Proposals
  import opened Protocol
  import opened Runs
  import opened Reachable
  import Curation
  import Execution
  import IndexAgreement
  import Reconcile

  // ---------------------------------------------------------------- the document's column

  predicate AllWritable(parts: seq<string>) { forall p | p in parts :: Writable(p) }

  lemma {:induction false} JoinIsWritable(parts: seq<string>)
    ensures Writable(Join(parts)) <==> AllWritable(parts)
  {
    if |parts| > 1 {
      JoinIsWritable(parts[1..]);
      assert parts == [parts[0]] + parts[1..];
      ConcatIsWritable(parts[0] + " ", Join(parts[1..]));
      ConcatIsWritable(parts[0], " ");
    } else if |parts| == 1 {
      assert parts == [parts[0]];
    }
  }

  lemma ConcatIsWritable(a: string, b: string)
    ensures Writable(a + b) <==> Writable(a) && Writable(b)
  {
  }

  lemma LowerIsWritable(s: string)
    ensures Writable(Lower(s)) <==> Writable(s)
  {
    forall i | 0 <= i < |s| ensures LowerChar(s[i]) == '\0' <==> s[i] == '\0' {}
    assert forall i | 0 <= i < |s| :: Lower(s)[i] == LowerChar(s[i]);
    if '\0' in s {
      var i :| 0 <= i < |s| && s[i] == '\0';
      assert Lower(s)[i] == '\0';
    }
  }

  lemma ColumnNamesAreWritable(columns: seq<Column>, d: Discovered)
    requires UniqueNames(columns) && ByName(columns) == ByName(d.columns) && RowsTake(d)
    ensures AllWritable(ColumnNames(columns))
  {
    ByNameOfUnique(columns);
    forall i | 0 <= i < |columns| ensures Writable(columns[i].name) {
      assert columns[i] in columns;
      assert ColumnFits(ByName(d.columns)[columns[i].name]);
    }
  }

  lemma EightAreWritable(p: seq<string>)
    requires |p| == 8
    ensures AllWritable(p) <==>
            && Writable(p[0]) && Writable(p[1]) && Writable(p[2]) && Writable(p[3])
            && Writable(p[4]) && Writable(p[5]) && Writable(p[6]) && Writable(p[7])
  {
    assert forall i | 0 <= i < |p| :: p[i] in p;
  }

  lemma TechnicalIsWritable(a: Asset, d: Discovered)
    requires a.technical == Fields(d) && RowsTake(d)
    ensures Writable(TextOf(a.technical.name)) && Writable(TextOf(a.technical.qualifiedName))
    ensures Writable(TextOf(a.technical.description))
  {
  }

  /** The document of an asset that shows a discovered item is a text that the column takes if and only if
      what its steward has said can be indexed. */
  lemma DocumentFitsExactly(a: Asset, d: Discovered)
    requires Reconcile.Current(a, d) && UniqueNames(a.columns) && RowsTake(d)
    ensures Writable(DocumentOf(a).text) <==> Indexable(a.curated)
  {
    ColumnNamesAreWritable(a.columns, d);
    TechnicalIsWritable(a, d);
    JoinIsWritable(ColumnNames(a.columns));
    JoinIsWritable(TagTexts(CuratedOf(a, Tags)));
    JoinIsWritable(Parts(a));
    LowerIsWritable(Join(Parts(a)));
    EightAreWritable(Parts(a));
    hide Join, Lower, ByName, TagTexts, UniqueNames, Writable, TextOf, RowsTake, ColumnNames;
  }

  /** Every pass that discovers an asset whose steward's words cannot be indexed fails as a whole. */
  lemma UnindexableFailsPasses(c: Catalog, source: string, tenant: string, ds: seq<Discovered>, now: int, i: nat)
    requires Reconcile.WellFormed(c) && i < |ds|
    requires KeyOf(source, ds[i]) in c.assets && !Indexable(c.assets[KeyOf(source, ds[i])].curated)
    ensures Reconcile.Synchronize(c, source, tenant, ds, now).Err?
  {
    Reconcile.SynchronizeIsCorrect(c, source, tenant, ds, now);
    hide Reconcile.Synchronize, Indexable, RowsTake;
    assert !Reconcile.Follows(c, source, tenant, ds[..i], ds[i]);
  }

  // ---------------------------------------------------------------- who brings them in

  /** An executed curation of the asset that says something the index does not take. */
  predicate Mutes(db: Db, id: nat, k: Key) {
    Curates(db, id, k) && !Indexable(CurationOf(db.proposals[id].intent.diff))
  }

  lemma MutesStays(db: Db, s: Step, id: nat, k: Key)
    requires Mutes(db, id, k)
    ensures Mutes(Next(db, s), id, k)
  {
    hide Next, Indexable, CurationOf, Tracked, Applied, Untouched;
    RowStep(db, s, id);
  }

  lemma NoCurationIsIndexable()
    ensures Indexable(NO_CURATION)
  {
  }

  /** Every other step keeps what is indexable. */
  predicate KeepsIndexable(c: Catalog, d: Catalog, key: Option<Key>) {
    forall k | k in d.assets && Some(k) != key && (k in c.assets ==> Indexable(c.assets[k].curated)) ::
      Indexable(d.assets[k].curated)
  }

  lemma DiscoveryKeepsIndexable(c: Catalog, source: string, tenant: string, ds: seq<Discovered>, now: int)
    requires Reconcile.WellFormed(c) && Reconcile.Synchronize(c, source, tenant, ds, now).Ok?
    ensures KeepsIndexable(c, Reconcile.Synchronize(c, source, tenant, ds, now).value.catalog, None)
  {
    hide DocumentOf, Reconcile.AbsorbAll, Reconcile.WellFormed, Indexable, Reconcile.Reindexed;
    var r := Reconcile.Synchronize(c, source, tenant, ds, now).value;
    Reconcile.AbsorbAllIsFramed(Reconcile.Start(c, |ds|), source, tenant, Reconcile.KnownKeys(c, source, tenant),
                                ds, now, r);
    NoCurationIsIndexable();
  }

  lemma CurationKeepsIndexable(db: Db, key: Key, updates: Curated, actor: string, now: int, fails: bool)
    ensures KeepsIndexable(db.catalog, Curation.UpdateCuration(db, key, updates, actor, now, fails).catalog, None)
  {
    hide DocumentOf, Curation.Edits, Curation.Edited, Indexable, Storable;
  }

  lemma MovedKeepsIndexable(db: Db, r: Db, req: Request, id: nat)
    requires Moved(db, r, req, id)
    ensures var p := db.proposals[id];
      KeepsIndexable(db.catalog, r.catalog,
                     if r.proposals[id].status == Executed && p.intent.proposalType == AssetCuration
                     then Some(p.intent.resource) else None)
  {
    hide Tracked, Legal, Curate, CurationOf, ExpectedVersion, Unstorable, Indexable;
  }

  lemma NothingKeepsIndexable(c: Catalog, key: Option<Key>)
    ensures KeepsIndexable(c, c, key)
  {
  }

  lemma CallKeepsIndexable(db: Db, s: Step)
    requires s.event.Governance?
    ensures KeepsIndexable(db.catalog, Next(db, s).catalog, IndexAgreement.LeftBehind(db, s))
  {
    hide Commit, Moved, Proposed, KeepsIndexable;
    var c, r := s.event.call, Next(db, s);
    EveryCallIsLegal(db, c, s.req, s.faults);
    NothingKeepsIndexable(db.catalog, IndexAgreement.LeftBehind(db, s));
    if r != db {
      if c.CreateCall? {
        IndexAgreement.ProposedKeepsCatalog(db, r, s.req, c.payload, c.host);
      } else {
        IndexAgreement.MovedFacts(db, r, s.req, c.id);
        MovedKeepsIndexable(db, r, s.req, c.id);
      }
    }
  }

  lemma StepKeepsIndexable(db: Db, s: Step)
    requires Reconcile.WellFormed(db.catalog)
    ensures KeepsIndexable(db.catalog, Next(db, s).catalog, IndexAgreement.LeftBehind(db, s))
  {
    hide DocumentOf, Reconcile.Synchronize, Reconcile.WellFormed, Indexable;
    match s.event
    case Governance(_) => CallKeepsIndexable(db, s);
    case DirectCuration(key, updates, actor) =>
      CurationKeepsIndexable(db, key, updates, actor, s.req.now, s.faults.store);
    case NewDomain(_) =>
    case Discovery(source, found) =>
      if Next(db, s) != db { DiscoveryKeepsIndexable(db.catalog, source, s.req.tenant, found, s.req.now); }
  }

  /** An executed curation leaves its asset indexable if asset and change were. */
  lemma CurateIsIndexable(a: Asset, changes: Curated, id: nat, actor: string, now: int)
    requires Indexable(a.curated) && Indexable(changes)
    ensures Indexable(Curate(a, changes, id, actor, now).curated)
  {
  }

  lemma ExecutionMutes(db: Db, s: Step, k: Key) returns (id: nat)
    requires IndexAgreement.LeftBehind(db, s) == Some(k) && k in db.catalog.assets
    requires Indexable(db.catalog.assets[k].curated)
    requires k in Next(db, s).catalog.assets && !Indexable(Next(db, s).catalog.assets[k].curated)
    ensures Mutes(Next(db, s), id, k)
  {
    hide Next, Tracked, Legal, ExpectedVersion, Unstorable, Indexable, CurationOf, Curate;
    id := s.event.call.id;
    var r := Next(db, s);
    RowStep(db, s, id);
    assert Moved(db, r, s.req, id);
    MovedKeepsIntent(db, r, s.req, id);
    CuratedByMove(db, r, s.req, id);
    var p := db.proposals[id];
    if Indexable(CurationOf(p.intent.diff)) {
      CurateIsIndexable(db.catalog.assets[k], CurationOf(p.intent.diff), id, s.req.principal.subject, s.req.now);
    }
  }

  lemma MovedKeepsIntent(db: Db, r: Db, req: Request, id: nat)
    requires Moved(db, r, req, id)
    ensures r.proposals[id].intent == db.proposals[id].intent
  {
    hide Tracked, Applied, Untouched;
  }

  lemma CuratedByMove(db: Db, r: Db, req: Request, id: nat)
    requires Moved(db, r, req, id) && r.proposals[id].status == Executed
    requires db.proposals[id].intent.proposalType == AssetCuration
    ensures var key := db.proposals[id].intent.resource;
      && key in db.catalog.assets && key in r.catalog.assets
      && r.catalog.assets[key] ==
        Curate(db.catalog.assets[key], CurationOf(db.proposals[id].intent.diff), id, req.principal.subject, req.now)
  {
    hide Tracked, Legal, ExpectedVersion, Unstorable, CurationOf, Curate;
  }

  lemma ResourceStays(db: Db, s: Step, k: Key)
    requires Reconcile.WellFormed(db.catalog) && IndexAgreement.LeftBehind(db, s) == Some(k)
    ensures k in db.catalog.assets
  {
    hide Next, Tracked, Legal, ExpectedVersion, Unstorable, Curate;
    RowStep(db, s, s.event.call.id);
  }

  /** In every reachable state an asset that cannot be indexed is one that an executed curation has given
      words with a NUL. */
  lemma {:induction false} UnindexableOnlyAfterExecution(steps: seq<Step>, k: Key) returns (id: nat)
    requires var c := Run(EMPTY, steps).catalog; k in c.assets && !Indexable(c.assets[k].curated)
    ensures Mutes(Run(EMPTY, steps), id, k)
  {
    hide Next, Indexable, Mutes, Invariant, IndexAgreement.LeftBehind;
    var b, s := steps[..|steps| - 1], steps[|steps| - 1];
    var db := Run(EMPTY, b);
    EveryRunIsSound(b);
    IndexAgreement.InvariantIsWellFormed(db);
    StepKeepsIndexable(db, s);
    if k in db.catalog.assets && !Indexable(db.catalog.assets[k].curated) {
      id := UnindexableOnlyAfterExecution(b, k);
      MutesStays(db, s, id, k);
    } else {
      ResourceStays(db, s, k);
      id := ExecutionMutes(db, s, k);
    }
  }

  // ---------------------------------------------------------------- and that it happens

  /** A proposal of a tag that is a NUL. */
  const RETAG := REHOME.(diff := map["tags" := JList([JText("\0")])])

  lemma TagIsProposable(items: seq<Json>)
    requires forall t | t in items :: BoundedText(t, 100) && t.text != ""
    ensures DiffError(AssetCuration, map["tags" := JList(items)]).None?
  {
    var diff := map["tags" := JList(items)];
    assert diff.Keys == {"tags"} && diff["tags"] == JList(items);
  }

  lemma CurationOfTags(tags: Json)
    ensures CurationOf(map["tags" := tags]) == map[Tags := tags]
  {
    var diff, c := map["tags" := tags], CurationOf(map["tags" := tags]);
    assert Tags in CURATION_FIELDS by { assert CURATION_FIELDS[1] == Tags; }
    forall f | f in c ensures f == Tags { assert FieldName(f) in diff; }
  }

  lemma TagsAreStorable(domains: set<string>, tags: Json)
    ensures Storable(domains, CurationOf(map["tags" := tags]))
    ensures var c := CurationOf(map["tags" := tags]); Tags in c && c[Tags] == tags
  {
    CurationOfTags(tags);
    hide CurationOf, TextColumnTakes;
  }

  lemma TagPasses()
    ensures DiffError(AssetCuration, RETAG.diff).None? && !Unstorable({}, IntentOf(RETAG, STEWARD, None))
  {
    TagIsProposable([JText("\0")]);
    TagsAreStorable({}, JList([JText("\0")]));
    hide DiffError, Storable, CurationOf;
  }

  lemma RetagIsPlanned()
    ensures Planned(STEWARD, "src", TABLE, RETAG, "ok")
  {
    TagPasses();
    hide DiffError, CurationOf, Unstorable, Indexable;
  }

  /** A confirmed change that can be stored is made. */
  lemma ConfirmedExecutes(db: Db, req: Request, hash: Sent, nonce: string)
    requires Steward(req.principal) && Decidable(req) && Execution.Confirmed(db, req, 0, hash, nonce)
    requires !Unstorable(db.domains, db.proposals[0].intent) && db.proposals[0].intent.proposalType == AssetCuration
    ensures var r, key := Next(db, Step(Governance(ExecuteCall(0, hash, nonce)), req, NO_FAULTS)),
      db.proposals[0].intent.resource;
      && key in db.catalog.assets && key in r.catalog.assets
      && r.catalog.assets[key] ==
        Curate(db.catalog.assets[key], CurationOf(db.proposals[0].intent.diff), 0, req.principal.subject, req.now)
  {
    hide Execute, Unstorable, Steward, Auditable, Execution.Confirmed, Curate, CurationOf;
    Execution.ExecuteIsExact(db, req, 0, hash, nonce);
    CuratedByMove(db, Execute(db, req, 0, hash, nonce, NO_FAULTS).0, req, 0);
  }

  lemma CurateIsNotIndexable(a: Asset, changes: Curated, id: nat, actor: string, now: int)
    requires Tags in changes && exists t :: t in TagTexts(changes[Tags]) && !Writable(t)
    ensures !Indexable(Curate(a, changes, id, actor, now).curated)
  {
  }

  lemma TagIsNotIndexable(a: Asset, actor: string, now: int)
    ensures !Indexable(Curate(a, CurationOf(RETAG.diff), 0, actor, now).curated)
  {
    TagsAreStorable({}, JList([JText("\0")]));
    var c := CurationOf(RETAG.diff);
    assert TagTexts(c[Tags])[0] == "\0" && !Writable("\0");
    hide CurationOf, Indexable, TagTexts;
    CurateIsNotIndexable(a, c, 0, actor, now);
  }

  /** From the empty database: a discovered table, a proposal of such a tag, its approval and its confirmed
      execution. From then on every discovery pass over the table fails. */
  lemma MutingIsReachable(ds: seq<Discovered>, now: int, i: nat)
    requires i < |ds| && KeyOf("src", ds[i]) == KeyOf("src", TABLE)
    ensures var steps := StewardRun(STEWARD, "src", TABLE, RETAG, "ok", "n") +
      [Confirmation(STEWARD, RETAG, STEWARD, "n")];
      var r := Run(EMPTY, steps);
      && KeyOf("src", TABLE) in r.catalog.assets && !Indexable(r.catalog.assets[KeyOf("src", TABLE)].curated)
      && Reconcile.Synchronize(r.catalog, "src", "t", ds, now).Err?
  {
    hide Run, StewardRun, Planned, Unstorable, Indexable, Execution.Confirmed, IntentOf, Curate, Reconcile.Synchronize,
         Invariant;
    var steps, call := StewardRun(STEWARD, "src", TABLE, RETAG, "ok", "n"), Confirmation(STEWARD, RETAG, STEWARD, "n");
    RetagIsPlanned();
    TagPasses();
    StewardRunEndsApproved(STEWARD, "src", TABLE, RETAG, "ok", "n");
    RunMore(steps, call);
    var db := Run(EMPTY, steps);
    RetagIntent();
    ConfirmedExecutes(db, STEWARD, call.event.call.hash, "n");
    TagIsNotIndexable(db.catalog.assets[KeyOf("src", TABLE)], "s", 0);
    EveryRunIsSound(steps + [call]);
    IndexAgreement.InvariantIsWellFormed(Run(EMPTY, steps + [call]));
    UnindexableFailsPasses(Run(EMPTY, steps + [call]).catalog, "src", "t", ds, now, i);
  }

  lemma RetagIntent()
    ensures var intent := IntentOf(RETAG, STEWARD, None);
      intent.proposalType == AssetCuration && intent.resource == KeyOf("src", TABLE) && intent.diff == RETAG.diff
    ensures Steward(STEWARD.principal) && Decidable(STEWARD) && STEWARD.principal.subject == "s" && STEWARD.now == 0
  {
  }
}
