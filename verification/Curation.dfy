/** Direct curation: `update_asset_curation` of apps/catalog-api/app/services/catalog_service.py. */
module Curation {
  import opened Values
  import opened Assets
  import opened SearchIndex
  import opened Store

  function Edits(a: Asset, updates: Curated): map<CuratedField, Change> {
    map f | f in updates && CuratedOf(a, f) != updates[f] :: Change(CuratedOf(a, f), updates[f])
  }

  function Afters(edits: map<CuratedField, Change>): Curated { map f | f in edits :: edits[f].after }

  function Befores(edits: map<CuratedField, Change>): Curated { map f | f in edits :: edits[f].before }

  function Edited(a: Asset, updates: Curated, actor: string, now: int): Asset {
    a.(curated := a.curated + Afters(Edits(a, updates)), curatedAt := Some(now),
       history := a.history + [Version.Curation(Edits(a, updates), actor)])
  }

  /** Nothing is committed when nothing changes, when a column does not take its new value or the search
      document the new whole, or when the store fails. */
  function UpdateCuration(db: Db, key: Key, updates: Curated, actor: string, now: int, fails: bool): Db {
    if key !in db.catalog.assets || Edits(db.catalog.assets[key], updates) == map[]
       || !Storable(db.domains, Afters(Edits(db.catalog.assets[key], updates)))
       || !Indexable(Edited(db.catalog.assets[key], updates, actor, now).curated) || fails then db
    else
      var a := Edited(db.catalog.assets[key], updates, actor, now);
      db.(catalog := Catalog(db.catalog.assets[key := a], db.catalog.documents[key := DocumentOf(a)]))
  }

  /** Direct curation sets exactly the submitted values, and is silent if and only if they are all there. */
  lemma CurationIsExact(a: Asset, updates: Curated, actor: string, now: int)
    ensures forall f: CuratedField ::
      CuratedOf(Edited(a, updates, actor, now), f) == if f in updates then updates[f] else CuratedOf(a, f)
    ensures Edits(a, updates) == map[] <==> forall f | f in updates :: CuratedOf(a, f) == updates[f]
  {
    if Edits(a, updates) == map[] {
      forall f | f in updates ensures CuratedOf(a, f) == updates[f] { assert f !in Edits(a, updates); }
    }
  }

  const ALL_CURATED: seq<CuratedField> := [Description, Tags, Owner, Classification, DomainId, Lifecycle]

  lemma AllListed(f: CuratedField)
    ensures f in ALL_CURATED
  {
  }

  /** The fields not yet visited by the loop. */
  function Later(i: nat): set<CuratedField>
    requires i <= |ALL_CURATED|
  {
    set f | f in ALL_CURATED[i..]
  }

  lemma LaterEnds(m: map<CuratedField, Change>)
    ensures m - Later(0) == map[] && Later(|ALL_CURATED|) == {}
  {
    forall f ensures f in Later(0) { AllListed(f); assert ALL_CURATED[0..] == ALL_CURATED; }
  }

  lemma LaterStep(m: map<CuratedField, Change>, i: nat)
    requires i < |ALL_CURATED|
    ensures var f := ALL_CURATED[i];
      m - Later(i + 1) == if f in m then (m - Later(i))[f := m[f]] else m - Later(i)
  {
    assert ALL_CURATED[i..] == [ALL_CURATED[i]] + ALL_CURATED[i + 1..];
    RemoveLess(m, Later(i), Later(i + 1), ALL_CURATED[i]);
  }

  lemma AfterStep(curated: Curated, edits: map<CuratedField, Change>, f: CuratedField, c: Change)
    ensures curated + Afters(edits[f := c]) == (curated + Afters(edits))[f := c.after]
  {
  }

  /** The loop over the submitted fields: assign those that differ and remember what they replaced. */
  method AssignFields(asset: Asset, updates: Curated) returns (curated: Curated, changed: map<CuratedField, Change>)
    ensures changed == Edits(asset, updates) && curated == asset.curated + Afters(changed)
  {
    ghost var all := Edits(asset, updates);
    curated, changed := asset.curated, map[];
    LaterEnds(all);
    hide Later;
    for i := 0 to |ALL_CURATED|
      invariant changed == all - Later(i) && curated == asset.curated + Afters(changed)
    {
      var field := ALL_CURATED[i];
      LaterStep(all, i);
      if field in updates && CuratedOf(asset, field) != updates[field] {
        AfterStep(asset.curated, changed, field, Change(CuratedOf(asset, field), updates[field]));
        changed := changed[field := Change(CuratedOf(asset, field), updates[field])];
        curated := curated[field := updates[field]];
      }
    }
    assert changed == all;
  }

  method UpdateAssetCuration(db: Session, key: Key, updates: Curated, actor: string, now: int, fails: bool)
    requires db.work == db.committed && key in db.work.catalog.assets
    modifies db
    ensures db.committed == UpdateCuration(old(db.committed), key, updates, actor, now, fails)
  {
    hide DocumentOf, Edits, Afters, Storable, Indexable;
    var asset := db.work.catalog.assets[key];
    var curated, changed := AssignFields(asset, updates);
    if changed != map[] {
      asset := asset.(curated := curated, curatedAt := Some(now),
                      history := asset.history + [Version.Curation(changed, actor)]);
      db.work := db.work.(catalog := Catalog(db.work.catalog.assets[key := asset],
                                             db.work.catalog.documents[key := DocumentOf(asset)]));
      var ok := db.Commit(fails || !Storable(db.work.domains, Afters(changed)) || !Indexable(curated));
    }
  }
}
