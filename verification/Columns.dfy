/** Column reconciliation: the ordered dictionaries, the diff record and the in-place merge of
    `_sync_columns` in apps/catalog-api/app/services/ingestion_service.py. */
module Columns {
  import opened Values

  datatype Column = Column(
    name: string, position: int, dataType: string, isNullable: bool,
    defaultValue: Option<string>, comment: Option<string>)

  /** One entry of the "updated" list; the entry's name is `before.name`. */
  datatype Update = Update(before: Column, after: Column)

  datatype Changes = Changes(created: seq<Column>, updated: seq<Update>, removed: seq<Column>) {
    predicate Empty() { created == [] && updated == [] && removed == [] }
  }

  predicate UniqueNames(s: seq<Column>) {
    forall i, j | 0 <= i < j < |s| :: s[i].name != s[j].name
  }

  /** The contents of a column list as a dictionary: the last column of a name wins. */
  function ByName(s: seq<Column>): map<string, Column> {
    if s == [] then map[] else var c := s[|s| - 1]; ByName(s[..|s| - 1])[c.name := c]
  }

  function Names(s: seq<Column>): set<string> { ByName(s).Keys }

  function IndexOf(s: seq<Column>, name: string): (i: nat)
    ensures i <= |s|
    ensures i < |s| ==> s[i].name == name
    ensures forall j | 0 <= j < i :: s[j].name != name
  {
    if s == [] || s[0].name == name then 0 else 1 + IndexOf(s[1..], name)
  }

  /** The items of `{c.name: c for c in s}` in dictionary order: a repeated name keeps its first
      place and takes its last value. */
  function DictItems(s: seq<Column>): seq<Column> {
    if s == [] then []
    else
      var c, d := s[|s| - 1], DictItems(s[..|s| - 1]);
      var i := IndexOf(d, c.name);
      if i < |d| then d[i := c] else d + [c]
  }

  function Within(s: seq<Column>, names: set<string>): seq<Column> {
    if s == [] then []
    else var c := s[|s| - 1]; Within(s[..|s| - 1], names) + if c.name in names then [c] else []
  }

  function Without(s: seq<Column>, names: set<string>): seq<Column> {
    if s == [] then []
    else var c := s[|s| - 1]; Without(s[..|s| - 1], names) + if c.name in names then [] else [c]
  }

  function Updated(existing: seq<Column>, incoming: map<string, Column>): seq<Column> {
    seq(|existing|, i requires 0 <= i < |existing| =>
      if existing[i].name in incoming then incoming[existing[i].name] else existing[i])
  }

  function Updates(items: seq<Column>, existing: map<string, Column>): seq<Update> {
    if items == [] then []
    else
      var c := items[|items| - 1];
      Updates(items[..|items| - 1], existing) +
      if c.name in existing && existing[c.name] != c then [Update(existing[c.name], c)] else []
  }

  /** The list after synchronization: surviving columns in place, new columns appended. */
  function Merge(existing: seq<Column>, discovered: seq<Column>): seq<Column> {
    Within(Updated(existing, ByName(discovered)), Names(discovered)) + Without(DictItems(discovered), Names(existing))
  }

  function Diff(existing: seq<Column>, discovered: seq<Column>): Changes {
    Changes(Without(DictItems(discovered), Names(existing)),
            Updates(DictItems(discovered), ByName(existing)),
            Without(existing, Names(discovered)))
  }

  function Befores(u: seq<Update>): seq<Column> { seq(|u|, i requires 0 <= i < |u| => u[i].before) }

  function Afters(u: seq<Update>): seq<Column> { seq(|u|, i requires 0 <= i < |u| => u[i].after) }

  /** What a change record does to a name-indexed view, forwards and backwards. */
  function Apply(ch: Changes, view: map<string, Column>): map<string, Column> {
    (view - Names(ch.removed)) + ByName(ch.created) + ByName(Afters(ch.updated))
  }

  function Revert(ch: Changes, view: map<string, Column>): map<string, Column> {
    (view - Names(ch.created)) + ByName(ch.removed) + ByName(Befores(ch.updated))
  }

  // ---------------------------------------------------------------- dictionaries

  lemma {:induction false} ByNameKeys(s: seq<Column>)
    ensures forall n | n in ByName(s) :: ByName(s)[n] in s && ByName(s)[n].name == n
    ensures forall c | c in s :: c.name in ByName(s)
  {
    if s != [] {
      ByNameKeys(s[..|s| - 1]);
      assert s == s[..|s| - 1] + [s[|s| - 1]];
    }
  }

  lemma {:induction false} ByNameOfUnique(s: seq<Column>)
    requires UniqueNames(s)
    ensures forall c | c in s :: c.name in ByName(s) && ByName(s)[c.name] == c
  {
    if s != [] {
      ByNameOfUnique(s[..|s| - 1]);
      assert s == s[..|s| - 1] + [s[|s| - 1]];
    }
  }

  /** A list without repeated names is determined, up to order, by its dictionary. */
  lemma ByNameIs(s: seq<Column>, m: map<string, Column>)
    requires UniqueNames(s)
    requires forall c | c in s :: c.name in m && m[c.name] == c
    requires forall n | n in m :: m[n] in s && m[n].name == n
    ensures ByName(s) == m
  {
    ByNameKeys(s);
    ByNameOfUnique(s);
  }

  lemma ReplaceAt(d: seq<Column>, i: nat, c: Column)
    requires UniqueNames(d) && i < |d| && d[i].name == c.name
    ensures UniqueNames(d[i := c]) && ByName(d[i := c]) == ByName(d)[c.name := c]
  {
    hide ByName;
    var e, m := d[i := c], ByName(d)[c.name := c];
    ByNameKeys(d);
    ByNameOfUnique(d);
    assert forall j | 0 <= j < |d| :: e[j].name == d[j].name;
    forall x | x in e ensures x.name in m && m[x.name] == x {
      var j :| 0 <= j < |e| && e[j] == x;
      if j != i { assert d[j] in d; }
    }
    forall n | n in m ensures m[n] in e && m[n].name == n {
      if n == c.name {
        assert e[i] == c;
      } else {
        var j :| 0 <= j < |d| && d[j] == m[n];
        assert e[j] == d[j];
      }
    }
    ByNameIs(e, m);
  }

  lemma AppendTo(d: seq<Column>, c: Column)
    requires UniqueNames(d) && c.name !in Names(d)
    ensures UniqueNames(d + [c]) && ByName(d + [c]) == ByName(d)[c.name := c]
  {
    ByNameKeys(d);
    assert (d + [c])[..|d|] == d;
    assert forall j | 0 <= j < |d| :: d[j] in d;
  }

  lemma {:induction false} DictItemsAreByName(s: seq<Column>)
    ensures UniqueNames(DictItems(s)) && ByName(DictItems(s)) == ByName(s)
  {
    if s != [] {
      var c, d := s[|s| - 1], DictItems(s[..|s| - 1]);
      DictItemsAreByName(s[..|s| - 1]);
      var i := IndexOf(d, c.name);
      ByNameKeys(d);
      if i < |d| { ReplaceAt(d, i, c); } else { AppendTo(d, c); }
    }
  }

  // ---------------------------------------------------------------- the merge

  lemma LastIsNew(p: seq<Column>, c: Column)
    requires UniqueNames(p + [c])
    ensures UniqueNames(p) && forall x | x in p :: x.name != c.name
  {
    var all := p + [c];
    assert all[|p|] == c && forall j | 0 <= j < |p| :: all[j] == p[j];
  }

  lemma OneMoreColumn(s: seq<Column>, c: Column)
    requires UniqueNames(s) && forall x | x in s :: x.name != c.name
    ensures UniqueNames(s + [c])
  {
    assert forall j | 0 <= j < |s| :: s[j] in s;
  }

  lemma {:induction false} Selected(s: seq<Column>, names: set<string>)
    requires UniqueNames(s)
    ensures UniqueNames(Within(s, names)) && UniqueNames(Without(s, names))
    ensures forall c :: c in Within(s, names) <==> c in s && c.name in names
    ensures forall c :: c in Without(s, names) <==> c in s && c.name !in names
  {
    if s != [] {
      var p, c := s[..|s| - 1], s[|s| - 1];
      assert s == p + [c];
      LastIsNew(p, c);
      Selected(p, names);
      hide UniqueNames;
      if c.name in names { OneMoreColumn(Within(p, names), c); } else { OneMoreColumn(Without(p, names), c); }
    }
  }

  lemma {:induction false} KeepAll(s: seq<Column>, names: set<string>)
    requires forall c | c in s :: c.name in names
    ensures Within(s, names) == s && Without(s, names) == []
  {
    if s != [] {
      assert s == s[..|s| - 1] + [s[|s| - 1]];
      KeepAll(s[..|s| - 1], names);
    }
  }

  /** The merged list holds exactly the discovered columns. */
  lemma MergeIsDiscovered(existing: seq<Column>, discovered: seq<Column>)
    requires UniqueNames(existing)
    ensures UniqueNames(Merge(existing, discovered))
    ensures ByName(Merge(existing, discovered)) == ByName(discovered)
  {
    hide DictItems, ByName, Within, Without;
    var m, items := ByName(discovered), DictItems(discovered);
    var u := Updated(existing, m);
    DictItemsAreByName(discovered);
    ByNameKeys(existing); ByNameKeys(items);
    ByNameOfUnique(items);
    assert forall j | 0 <= j < |u| :: u[j].name == existing[j].name;
    Selected(u, m.Keys);
    Selected(items, Names(existing));
    var kept, added := Within(u, m.Keys), Without(items, Names(existing));
    forall c | c in kept ensures m[c.name] == c && c.name in Names(existing) {
      var j :| 0 <= j < |u| && u[j] == c;
      assert existing[j] in existing;
    }
    assert forall j | 0 <= j < |kept| :: kept[j] in kept;
    assert forall j | 0 <= j < |added| :: added[j] in added;
    var all := Merge(existing, discovered);
    forall n | n in m ensures m[n] in all {
      if n in Names(existing) {
        var j :| 0 <= j < |existing| && existing[j] == ByName(existing)[n];
        assert u[j] in u && u[j] in kept;
      } else {
        assert m[n] in added;
      }
    }
    ByNameIs(all, m);
  }

  lemma OneMoreUpdate(u: seq<Update>, e: Update)
    requires UniqueNames(Befores(u)) && UniqueNames(Afters(u))
    requires forall x | x in u :: x.before.name != e.before.name && x.after.name != e.after.name
    ensures UniqueNames(Befores(u + [e])) && UniqueNames(Afters(u + [e]))
  {
    assert Befores(u + [e]) == Befores(u) + [e.before] && Afters(u + [e]) == Afters(u) + [e.after];
    assert forall j | 0 <= j < |u| :: u[j] in u && Befores(u)[j] == u[j].before && Afters(u)[j] == u[j].after;
  }

  lemma UpdatesStep(p: seq<Column>, c: Column, existing: map<string, Column>)
    ensures Updates(p + [c], existing) ==
            if c.name in existing && existing[c.name] != c then Updates(p, existing) + [Update(existing[c.name], c)]
            else Updates(p, existing)
  {
    assert (p + [c])[..|p|] == p;
  }

  /** The entries of the "updated" list: exactly the shared names whose column changed. */
  lemma {:induction false} UpdatesAre(items: seq<Column>, existing: map<string, Column>)
    requires UniqueNames(items)
    requires forall n | n in existing :: existing[n].name == n
    ensures UniqueNames(Befores(Updates(items, existing))) && UniqueNames(Afters(Updates(items, existing)))
    ensures forall u :: u in Updates(items, existing) <==>
      u.after in items && u.after.name in existing && u.before == existing[u.after.name] && u.before != u.after
  {
    if items != [] {
      var p, c := items[..|items| - 1], items[|items| - 1];
      assert items == p + [c];
      LastIsNew(p, c);
      UpdatesAre(p, existing);
      UpdatesStep(p, c, existing);
      hide Updates, UniqueNames, Befores, Afters;
      if c.name in existing && existing[c.name] != c {
        OneMoreUpdate(Updates(p, existing), Update(existing[c.name], c));
      }
    }
  }

  lemma UpdateViews(u: seq<Update>)
    requires UniqueNames(Befores(u)) && UniqueNames(Afters(u))
    requires forall e | e in u :: e.before.name == e.after.name
    ensures forall e | e in u ::
      ByNameHas(Befores(u), e.after.name, e.before) && ByNameHas(Afters(u), e.after.name, e.after)
    ensures forall n | n in Names(Befores(u)) + Names(Afters(u)) :: exists e :: e in u && e.after.name == n
  {
    var b, a := Befores(u), Afters(u);
    ByNameKeys(b); ByNameKeys(a);
    ByNameOfUnique(b); ByNameOfUnique(a);
    forall e | e in u
      ensures ByNameHas(b, e.after.name, e.before) && ByNameHas(a, e.after.name, e.after)
    {
      var j :| 0 <= j < |u| && u[j] == e;
      assert b[j] == e.before && a[j] == e.after;
    }
    forall n | n in Names(b) + Names(a) ensures exists e :: e in u && e.after.name == n {
      if n in Names(b) {
        var j :| 0 <= j < |b| && b[j] == ByName(b)[n];
        assert u[j] in u;
      } else {
        var j :| 0 <= j < |a| && a[j] == ByName(a)[n];
        assert u[j] in u;
      }
    }
  }

  predicate ByNameHas(s: seq<Column>, n: string, c: Column) { n in ByName(s) && ByName(s)[n] == c }

  /** The created and removed lists are the two set differences. */
  lemma SideViews(existing: seq<Column>, discovered: seq<Column>)
    requires UniqueNames(existing)
    ensures var was, found, ch := ByName(existing), ByName(discovered), Diff(existing, discovered);
      && ByName(ch.created) == found - was.Keys && Names(ch.created) == found.Keys - was.Keys
      && ByName(ch.removed) == was - found.Keys && Names(ch.removed) == was.Keys - found.Keys
  {
    hide DictItems, ByName, Within, Without;
    var was, found, ch := ByName(existing), ByName(discovered), Diff(existing, discovered);
    var items := DictItems(discovered);
    DictItemsAreByName(discovered);
    ByNameKeys(existing); ByNameKeys(discovered); ByNameKeys(items);
    ByNameOfUnique(existing); ByNameOfUnique(items);
    Selected(items, Names(existing)); Selected(existing, Names(discovered));
    assert forall n | n in found && n !in was :: found[n] in ch.created;
    assert forall n | n in was && n !in found :: was[n] in ch.removed;
    ByNameIs(ch.created, found - was.Keys);
    ByNameIs(ch.removed, was - found.Keys);
  }

  function Differing(a: map<string, Column>, b: map<string, Column>): set<string> {
    set n | n in a && n in b && a[n] != b[n]
  }

  lemma UpdatedViews(existing: seq<Column>, discovered: seq<Column>)
    requires UniqueNames(existing)
    ensures var was, found, u := ByName(existing), ByName(discovered), Diff(existing, discovered).updated;
      && Names(Befores(u)) == Names(Afters(u)) == Differing(was, found)
      && (forall n | n in Differing(was, found) :: ByName(Befores(u))[n] == was[n] && ByName(Afters(u))[n] == found[n])
  {
    var was, found, u := ByName(existing), ByName(discovered), Diff(existing, discovered).updated;
    var items := DictItems(discovered);
    DictItemsAreByName(discovered);
    ByNameKeys(existing); ByNameKeys(items);
    ByNameOfUnique(items);
    UpdatesAre(items, was);
    UpdateViews(u);
    forall n | n in Differing(was, found)
      ensures ByNameHas(Befores(u), n, was[n]) && ByNameHas(Afters(u), n, found[n])
    {
      assert found[n] in items;
      assert Update(was[n], found[n]) in u;
    }
    forall n | n in Names(Befores(u)) + Names(Afters(u)) ensures n in Differing(was, found) {
      var e :| e in u && e.after.name == n;
    }
  }

  /** The change record is exact and invertible, and empty exactly when nothing differs. */
  lemma DiffIsExact(existing: seq<Column>, discovered: seq<Column>)
    requires UniqueNames(existing)
    ensures Apply(Diff(existing, discovered), ByName(existing)) == ByName(discovered)
    ensures Revert(Diff(existing, discovered), ByName(discovered)) == ByName(existing)
    ensures Diff(existing, discovered).Empty() <==> ByName(existing) == ByName(discovered)
  {
    hide DictItems, ByName, Within, Without, Updates;
    var ch := Diff(existing, discovered);
    SideViews(existing, discovered);
    UpdatedViews(existing, discovered);
    DiffIsEmpty(existing, discovered);
    Patch(ByName(existing), ByName(discovered), ByName(ch.created), ByName(Afters(ch.updated)));
    Patch(ByName(discovered), ByName(existing), ByName(ch.removed), ByName(Befores(ch.updated)));
  }

  lemma Patch(a: map<string, Column>, b: map<string, Column>, extra: map<string, Column>, changed: map<string, Column>)
    requires extra == b - a.Keys
    requires changed.Keys == Differing(a, b) && forall n | n in changed :: changed[n] == b[n]
    ensures (a - (a.Keys - b.Keys)) + extra + changed == b
  {
  }

  lemma DiffIsEmpty(existing: seq<Column>, discovered: seq<Column>)
    requires UniqueNames(existing)
    ensures Diff(existing, discovered).Empty() <==> ByName(existing) == ByName(discovered)
  {
    var was, found, ch := ByName(existing), ByName(discovered), Diff(existing, discovered);
    SideViews(existing, discovered);
    UpdatedViews(existing, discovered);
    EmptyView(ch.created); EmptyView(ch.removed); EmptyView(Befores(ch.updated));
    assert ch.updated == [] <==> Befores(ch.updated) == [];
    if ch.Empty() {
      assert forall n | n in was :: n in found && n !in Differing(was, found);
    }
  }

  lemma EmptyView(s: seq<Column>)
    ensures s == [] <==> Names(s) == {}
  {
    ByNameKeys(s);
    if s != [] { assert s[0].name in Names(s); }
  }

  /** Discovering what is already there leaves the very list unchanged. */
  lemma MergeOfSame(existing: seq<Column>, discovered: seq<Column>)
    requires UniqueNames(existing) && ByName(existing) == ByName(discovered)
    ensures Merge(existing, discovered) == existing
  {
    hide DictItems, ByName, Within, Without;
    var m := ByName(discovered);
    DictItemsAreByName(discovered);
    ByNameKeys(existing); ByNameKeys(discovered); ByNameKeys(DictItems(discovered));
    ByNameOfUnique(existing);
    assert forall j | 0 <= j < |existing| :: existing[j] in existing;
    assert Updated(existing, m) == existing;
    KeepAll(existing, m.Keys);
    KeepAll(DictItems(discovered), Names(existing));
  }
}
