/** Leaving discovered items out of a reconciliation pass: exactly when the catalog does not notice. */
module PartialSync {
  import opened Values
  import opened Columns
  import opened Assets
  import opened SearchIndex
  import opened Store
  import opened Reconcile
  import Search

  function Pick(ds: seq<Discovered>, kept: seq<bool>): seq<Discovered>
    requires |kept| == |ds|
  {
    if ds == [] then []
    else Pick(ds[..|ds| - 1], kept[..|ds| - 1]) + if kept[|ds| - 1] then [ds[|ds| - 1]] else []
  }

  lemma PickLast(ds: seq<Discovered>, kept: seq<bool>)
    requires |kept| == |ds| > 0
    ensures var n, p := |ds| - 1, Pick(ds, kept);
      if kept[n] then p != [] && p[..|p| - 1] == Pick(ds[..n], kept[..n]) && p[|p| - 1] == ds[n]
      else p == Pick(ds[..n], kept[..n])
  {
  }

  /** The catalog already shows item d. */
  predicate Shown(c: Catalog, source: string, d: Discovered) {
    KeyOf(source, d) in c.assets && Current(c.assets[KeyOf(source, d)], d)
  }

  lemma UndatedRediscover(a: Asset, b: Asset, d: Discovered, now: int)
    requires Undated(a) == Undated(b)
    ensures Undated(Rediscover(a, d, now)) == Undated(Rediscover(b, d, now))
  {
  }

  lemma AbsorbBoth(s: Synced, t: Synced, source: string, tenant: string, known: set<Key>, d: Discovered, now: int)
    requires SameButDates(s.catalog, t.catalog)
    requires KeyOf(source, d) in s.unflushed <==> KeyOf(source, d) in t.unflushed
    ensures var f, p := Absorb(s, source, tenant, known, d, now), Absorb(t, source, tenant, known, d, now);
      f.Ok? == p.Ok? && (f.Ok? ==> SameButDates(f.value.catalog, p.value.catalog))
  {
    hide DocumentOf, Rediscover, NewAsset, Differs, RowsTake, Indexable;
    var key := KeyOf(source, d);
    if key in s.catalog.assets {
      UndatedRediscover(s.catalog.assets[key], t.catalog.assets[key], d, now);
    }
  }

  lemma KeyIsNew(source: string, ds: seq<Discovered>)
    requires Distinct(source, ds) && ds != []
    ensures Distinct(source, ds[..|ds| - 1]) && KeyOf(source, ds[|ds| - 1]) !in KeysOf(source, ds[..|ds| - 1])
  {
    var p := ds[..|ds| - 1];
    forall i | 0 <= i < |p| ensures Last(source, p, i) && KeyOf(source, p[i]) != KeyOf(source, ds[|p|]) {
      assert Last(source, ds, i);
    }
  }

  /** Items that the catalog already shows may be left out: the outcome is the same, and so is the
      catalog up to the two discovery timestamps. */
  lemma {:induction false} PartialEqualsFull(
    s: Synced, t: Synced, source: string, tenant: string, known: set<Key>, ds: seq<Discovered>, kept: seq<bool>,
    now: int)
    requires |kept| == |ds| && Distinct(source, ds) && WellFormed(s.catalog) && SameButDates(s.catalog, t.catalog)
    requires s.unflushed == t.unflushed == {}
    requires forall i | 0 <= i < |ds| && !kept[i] ::
               KeyOf(source, ds[i]) in known && Shown(s.catalog, source, ds[i]) && Accepts(s.catalog, source, ds[i])
    ensures var f, p := AbsorbAll(s, source, tenant, known, ds, now),
      AbsorbAll(t, source, tenant, known, Pick(ds, kept), now);
      f.Ok? == p.Ok? && (f.Ok? ==> SameButDates(f.value.catalog, p.value.catalog))
  {
    hide DocumentOf, Absorb, Distinct, Current, WellFormed, SameButDates, Pick, Accepts;
    if ds == [] {
      assert Pick(ds, kept) == [] by { PickNothing(kept); }
    } else {
      var n := |ds| - 1;
      KeyIsNew(source, ds);
      PickLast(ds, kept);
      PartialEqualsFull(s, t, source, tenant, known, ds[..n], kept[..n], now);
      var m, q := AbsorbAll(s, source, tenant, known, ds[..n], now),
        AbsorbAll(t, source, tenant, known, Pick(ds[..n], kept[..n]), now);
      if m.Ok? {
        NothingWaits(s, t, source, tenant, known, ds, kept, now);
        if kept[n] {
          AbsorbBoth(m.value, q.value, source, tenant, known, ds[n], now);
        } else {
          AbsorbAllIsFramed(s, source, tenant, known, ds[..n], now, m.value);
          ShownStays(s.catalog, m.value.catalog, source, tenant, KeysOf(source, ds[..n]), ds[n]);
          LeftOut(m.value, q.value.catalog, source, tenant, known, ds[n], now);
        }
      }
    }
  }

  lemma NothingWaits(s: Synced, t: Synced, source: string, tenant: string, known: set<Key>, ds: seq<Discovered>,
      kept: seq<bool>, now: int)
    requires |kept| == |ds| > 0 && Distinct(source, ds) && s.unflushed == t.unflushed == {}
    ensures var n, key := |ds| - 1, KeyOf(source, ds[|ds| - 1]);
      var m, q := AbsorbAll(s, source, tenant, known, ds[..n], now),
        AbsorbAll(t, source, tenant, known, Pick(ds[..n], kept[..n]), now);
      (m.Ok? ==> key !in m.value.unflushed) && (q.Ok? ==> key !in q.value.unflushed)
  {
    hide AbsorbAll, Pick, KeysOf, Distinct;
    var n := |ds| - 1;
    KeyIsNew(source, ds);
    PickedKeys(source, ds[..n], kept[..n]);
    UnflushedAreSeen(s, source, tenant, known, ds[..n], now);
    UnflushedAreSeen(t, source, tenant, known, Pick(ds[..n], kept[..n]), now);
  }

  lemma PickNothing(kept: seq<bool>)
    requires kept == []
    ensures Pick([], kept) == []
  {
  }

  lemma ShownStays(c: Catalog, d: Catalog, source: string, tenant: string, keys: set<Key>, item: Discovered)
    requires Framed(c, d, tenant, keys) && KeyOf(source, item) !in keys && Shown(c, source, item)
    ensures Shown(d, source, item) && (Accepts(c, source, item) ==> Accepts(d, source, item))
  {
  }

  lemma LeftOut(m: Synced, q: Catalog, source: string, tenant: string, known: set<Key>, d: Discovered, now: int)
    requires WellFormed(m.catalog) && SameButDates(m.catalog, q) && KeyOf(source, d) in known
    requires Shown(m.catalog, source, d)
    requires KeyOf(source, d) !in m.unflushed && Accepts(m.catalog, source, d)
    ensures var r := Absorb(m, source, tenant, known, d, now); r.Ok? && SameButDates(r.value.catalog, q)
  {
    hide DocumentOf, Rediscover, Current;
    RediscoverIsExact(m.catalog.assets[KeyOf(source, d)], d, now);
  }

  // ---------------------------------------------------------------- and only those

  lemma {:induction false} PickedKeys(source: string, ds: seq<Discovered>, kept: seq<bool>)
    requires |kept| == |ds|
    ensures KeysOf(source, Pick(ds, kept)) <= KeysOf(source, ds)
  {
    hide KeysOf, Pick;
    if ds == [] {
      PickNothing(kept);
    } else {
      var n := |ds| - 1;
      PickLast(ds, kept);
      PickedKeys(source, ds[..n], kept[..n]);
      KeysOfAppend(source, ds);
      if kept[n] { KeysOfAppend(source, Pick(ds, kept)); }
    }
  }

  lemma {:induction false} LeftOutKeys(source: string, ds: seq<Discovered>, kept: seq<bool>, i: nat)
    requires |kept| == |ds| && Distinct(source, ds) && i < |ds| && !kept[i]
    ensures KeyOf(source, ds[i]) !in KeysOf(source, Pick(ds, kept))
  {
    hide KeysOf, Pick;
    var n := |ds| - 1;
    PickLast(ds, kept);
    KeyIsNew(source, ds);
    if kept[n] { KeysOfAppend(source, Pick(ds, kept)); }
    if i == n {
      PickedKeys(source, ds[..n], kept[..n]);
    } else {
      assert Last(source, ds, i);
      LeftOutKeys(source, ds[..n], kept[..n], i);
    }
  }

  lemma {:induction false} PickedInsertable(c: Catalog, source: string, tenant: string, ds: seq<Discovered>,
      kept: seq<bool>)
    requires |kept| == |ds| && Distinct(source, ds) && Insertable(c, source, tenant, ds)
    ensures Insertable(c, source, tenant, Pick(ds, kept))
  {
    hide Insertable, KnownKeys, Pick, KeysOf, Distinct, Unflushed;
    if ds == [] {
      PickNothing(kept);
    } else {
      var n := |ds| - 1;
      PickLast(ds, kept);
      KeyIsNew(source, ds);
      InsertablePrefix(c, source, tenant, ds);
      PickedInsertable(c, source, tenant, ds[..n], kept[..n]);
      PickedKeys(source, ds[..n], kept[..n]);
      if kept[n] {
        InsertablePrefix(c, source, tenant, Pick(ds, kept));
        NotUnflushed(c, source, KnownKeys(c, source, tenant), Pick(ds[..n], kept[..n]), KeyOf(source, ds[n]));
      }
    }
  }

  /** One pass, exactly: if the full pass succeeds so does the partial one, and the two catalogs agree up
      to timestamps if and only if everything left out was already shown. */
  lemma PartialIsExact(c: Catalog, source: string, tenant: string, ds: seq<Discovered>, kept: seq<bool>, now: int)
    requires |kept| == |ds| && Distinct(source, ds) && WellFormed(c) && Synchronize(c, source, tenant, ds, now).Ok?
    ensures var full, partial := Synchronize(c, source, tenant, ds, now),
      Synchronize(c, source, tenant, Pick(ds, kept), now);
      partial.Ok? &&
      (SameButDates(full.value.catalog, partial.value.catalog) <==>
       forall i | 0 <= i < |ds| && !kept[i] :: Shown(c, source, ds[i]))
  {
    hide DocumentOf, Pick, ColumnTotal, Distinct, Insertable, AbsorbAll;
    PassEffects(c, source, tenant, ds, now);
    PickedInsertable(c, source, tenant, ds, kept);
    PassEffects(c, source, tenant, Pick(ds, kept), now);
    hide Synchronize, Framed, WellFormed, SameButDates, Shown;
    var full, partial := Synchronize(c, source, tenant, ds, now).value.catalog,
      Synchronize(c, source, tenant, Pick(ds, kept), now).value.catalog;
    if SameButDates(full, partial) {
      forall i | 0 <= i < |ds| && !kept[i] ensures Shown(c, source, ds[i]) {
        LeftOutKeys(source, ds, kept, i);
        MissedIsMissed(c, full, partial, source, tenant, ds, KeysOf(source, Pick(ds, kept)), i);
      }
    }
    if forall i | 0 <= i < |ds| && !kept[i] :: Shown(c, source, ds[i]) {
      ShownSuffices(c, source, tenant, ds, kept, now);
    }
  }

  /** The parts of `SynchronizeIsCorrect` that are needed here. */
  lemma PassEffects(c: Catalog, source: string, tenant: string, ds: seq<Discovered>, now: int)
    requires WellFormed(c)
    ensures var r := Synchronize(c, source, tenant, ds, now);
      && (r.Ok? <==> Insertable(c, source, tenant, ds))
      && (r.Ok? ==> Framed(c, r.value.catalog, tenant, KeysOf(source, ds)))
      && (r.Ok? && Distinct(source, ds) ==> forall i | 0 <= i < |ds| :: Shown(r.value.catalog, source, ds[i]))
  {
    hide DocumentOf, AbsorbAll, ColumnTotal, Insertable, WellFormed, Current;
    SynchronizeIsCorrect(c, source, tenant, ds, now);
    var r := Synchronize(c, source, tenant, ds, now);
    if r.Ok? && Distinct(source, ds) {
      forall i | 0 <= i < |ds| ensures Shown(r.value.catalog, source, ds[i]) {
        assert Last(source, ds, i);
        assert KeyOf(source, ds[i]) in KeysOf(source, ds);
      }
    }
  }

  lemma ShownSuffices(c: Catalog, source: string, tenant: string, ds: seq<Discovered>, kept: seq<bool>, now: int)
    requires |kept| == |ds| && Distinct(source, ds) && WellFormed(c) && Insertable(c, source, tenant, ds)
    requires forall i | 0 <= i < |ds| && !kept[i] :: Shown(c, source, ds[i])
    ensures var full, partial := Synchronize(c, source, tenant, ds, now),
      Synchronize(c, source, tenant, Pick(ds, kept), now);
      full.Ok? == partial.Ok? && (full.Ok? ==> SameButDates(full.value.catalog, partial.value.catalog))
  {
    KnownIfInsertable(c, source, tenant, ds);
    StartSame(c);
    forall i | 0 <= i < |ds| ensures Accepts(c, source, ds[i]) { InsertableAccepts(c, source, tenant, ds, i); }
    hide Insertable, Distinct, AbsorbAll, WellFormed, SameButDates, Pick, Current, Accepts;
    PartialEqualsFull(Start(c, |ds|), Start(c, |Pick(ds, kept)|), source, tenant,
                      KnownKeys(c, source, tenant), ds, kept, now);
  }

  lemma StartSame(c: Catalog)
    ensures SameButDates(c, c)
  {
  }

  lemma KnownIfInsertable(c: Catalog, source: string, tenant: string, ds: seq<Discovered>)
    requires Insertable(c, source, tenant, ds)
    ensures forall i | 0 <= i < |ds| && KeyOf(source, ds[i]) in c.assets ::
      KeyOf(source, ds[i]) in KnownKeys(c, source, tenant)
  {
  }

  lemma InsertableAccepts(c: Catalog, source: string, tenant: string, ds: seq<Discovered>, i: nat)
    requires Insertable(c, source, tenant, ds) && i < |ds|
    ensures Accepts(c, source, ds[i])
  {
    hide RowsTake, Indexable, Unflushed;
    assert Follows(c, source, tenant, ds[..i], ds[i]);
  }

  lemma MissedIsMissed(
    c: Catalog, full: Catalog, partial: Catalog, source: string, tenant: string, ds: seq<Discovered>,
    picked: set<Key>, i: nat)
    requires i < |ds| && Framed(c, partial, tenant, picked)
    requires Shown(full, source, ds[i])
    requires KeyOf(source, ds[i]) !in picked && SameButDates(full, partial)
    ensures Shown(c, source, ds[i])
  {
  }

  // ---------------------------------------------------------------- search documents

  lemma SameDocument(a: Asset, b: Asset)
    requires Undated(a) == Undated(b)
    ensures DocumentOf(a) == DocumentOf(b)
  {
    assert DocumentOf(a) == DocumentOf(Undated(a)) && DocumentOf(b) == DocumentOf(Undated(b));
  }

  predicate Documented(c: Catalog, k: Key) { k in c.assets && Search.Fresh(c, k) }

  lemma DocumentedIsThere(c: Catalog, k: Key)
    ensures Documented(c, k) ==> k in c.assets
  {
  }

  /** The document of one key after the full and after the partial pass. */
  lemma DocumentsOfKey(c: Catalog, full: Catalog, partial: Catalog, tenant: string, keys: set<Key>, picked: set<Key>,
        k: Key)
    requires Framed(c, full, tenant, keys) && Framed(c, partial, tenant, picked) && SameButDates(full, partial)
    requires picked <= keys && k in keys && (k !in picked ==> k in c.assets)
    ensures k in full.documents
    ensures k in partial.documents && full.documents[k] == partial.documents[k] <==> k in picked || Documented(c, k)
  {
    hide DocumentOf, SameStewardship, Undated;
    SameDocument(full.assets[k], partial.assets[k]);
  }

  /** The documents of the two passes, exactly: when everything left out was already shown, they agree if
      and only if each item left out had a document, and a fresh one. */
  lemma DocumentsAgreeExactly(c: Catalog, source: string, tenant: string, ds: seq<Discovered>, kept: seq<bool>,
        now: int)
    requires |kept| == |ds| && Distinct(source, ds) && WellFormed(c) && Synchronize(c, source, tenant, ds, now).Ok?
    requires forall i | 0 <= i < |ds| && !kept[i] :: Shown(c, source, ds[i])
    ensures var full, partial := Synchronize(c, source, tenant, ds, now),
      Synchronize(c, source, tenant, Pick(ds, kept), now);
      partial.Ok? &&
      (full.value.catalog.documents == partial.value.catalog.documents <==>
       forall i | 0 <= i < |ds| && !kept[i] :: Documented(c, KeyOf(source, ds[i])))
  {
    hide DocumentOf, Pick, ColumnTotal, Distinct, Insertable, AbsorbAll, Current;
    PassEffects(c, source, tenant, ds, now);
    ShownSuffices(c, source, tenant, ds, kept, now);
    PickedInsertable(c, source, tenant, ds, kept);
    PassEffects(c, source, tenant, Pick(ds, kept), now);
    hide Synchronize, Framed, WellFormed, SameButDates, Documented;
    var full, partial := Synchronize(c, source, tenant, ds, now).value.catalog,
      Synchronize(c, source, tenant, Pick(ds, kept), now).value.catalog;
    CompareDocuments(c, full, partial, source, tenant, ds, kept);
  }

  lemma OmittedDocument(
    c: Catalog, full: Catalog, partial: Catalog, source: string, tenant: string, ds: seq<Discovered>,
    kept: seq<bool>, i: nat)
    requires |kept| == |ds| && Distinct(source, ds) && i < |ds| && !kept[i] && Shown(c, source, ds[i])
    requires Framed(c, full, tenant, KeysOf(source, ds)) && Framed(c, partial, tenant, KeysOf(source, Pick(ds, kept)))
    requires SameButDates(full, partial)
    ensures full.documents == partial.documents ==> Documented(c, KeyOf(source, ds[i]))
  {
    hide Pick, Framed, SameButDates, Current, Documented, Distinct;
    LeftOutKeys(source, ds, kept, i);
    PickedKeys(source, ds, kept);
    DocumentsOfKey(c, full, partial, tenant, KeysOf(source, ds), KeysOf(source, Pick(ds, kept)), KeyOf(source, ds[i]));
  }

  lemma CompareDocuments(
    c: Catalog, full: Catalog, partial: Catalog, source: string, tenant: string, ds: seq<Discovered>, kept: seq<bool>)
    requires |kept| == |ds| && Distinct(source, ds) && forall i | 0 <= i < |ds| && !kept[i] :: Shown(c, source, ds[i])
    requires Framed(c, full, tenant, KeysOf(source, ds)) && Framed(c, partial, tenant, KeysOf(source, Pick(ds, kept)))
    requires SameButDates(full, partial)
    ensures full.documents == partial.documents <==>
            forall i | 0 <= i < |ds| && !kept[i] :: Documented(c, KeyOf(source, ds[i]))
  {
    hide Framed, Distinct, SameButDates, Documented, Pick, Shown, KeysOf;
    forall i | 0 <= i < |ds| && !kept[i]
      ensures full.documents == partial.documents ==> Documented(c, KeyOf(source, ds[i]))
    {
      OmittedDocument(c, full, partial, source, tenant, ds, kept, i);
    }
    if forall i | 0 <= i < |ds| && !kept[i] :: Documented(c, KeyOf(source, ds[i])) {
      var keys, picked := KeysOf(source, ds), KeysOf(source, Pick(ds, kept));
      PickedKeys(source, ds, kept);
      forall k | k in keys ensures k in picked || (k in c.assets && Documented(c, k)) {
        KeyIsItem(source, ds, kept, k);
        DocumentedIsThere(c, k);
      }
      SameDocuments(c, full, partial, tenant, keys, picked);
    }
  }

  lemma SameDocuments(c: Catalog, full: Catalog, partial: Catalog, tenant: string, keys: set<Key>, picked: set<Key>)
    requires Framed(c, full, tenant, keys) && Framed(c, partial, tenant, picked) && SameButDates(full, partial)
    requires picked <= keys && forall k | k in keys :: k in picked || (k in c.assets && Documented(c, k))
    ensures full.documents == partial.documents
  {
    hide Framed, SameButDates, Documented, DocumentOf;
    SamePlaces(c, full, partial, tenant, keys, picked);
    forall k | k in keys
      ensures k in full.documents && k in partial.documents && full.documents[k] == partial.documents[k]
    {
      DocumentsOfKey(c, full, partial, tenant, keys, picked, k);
    }
  }

  lemma SamePlaces(c: Catalog, full: Catalog, partial: Catalog, tenant: string, keys: set<Key>, picked: set<Key>)
    requires Framed(c, full, tenant, keys) && Framed(c, partial, tenant, picked) && picked <= keys
    ensures full.documents.Keys == c.documents.Keys + keys && partial.documents.Keys == c.documents.Keys + picked
    ensures forall k | k in c.documents && k !in keys :: full.documents[k] == partial.documents[k] == c.documents[k]
  {
  }

  lemma {:induction false} KeyIsItem(source: string, ds: seq<Discovered>, kept: seq<bool>, k: Key)
    requires |kept| == |ds| && k in KeysOf(source, ds)
    ensures k in KeysOf(source, Pick(ds, kept)) || exists i | 0 <= i < |ds| && !kept[i] :: KeyOf(source, ds[i]) == k
  {
    hide KeysOf, Pick;
    if ds == [] {
      PickNothing(kept);
    } else {
      var n := |ds| - 1;
      PickLast(ds, kept);
      KeysOfAppend(source, ds);
      if k in KeysOf(source, ds[..n]) { KeyIsItem(source, ds[..n], kept[..n], k); }
      if kept[n] { KeysOfAppend(source, Pick(ds, kept)); }
    }
  }
}
