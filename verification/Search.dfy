/** Finding assets by text: the pattern match of the database, the field-by-field scan and the search
    through the persistent documents, after `search_assets` and `reindex_assets` of
    apps/catalog-api/app/services. */
module Search {
  import opened Values
  import opened Assets
  import opened SearchIndex
  import opened Store

  // ---------------------------------------------------------------- ILIKE

  datatype Token = Any | One | Lit(c: char)

  /** A LIKE pattern: % is any text, _ any character, and a backslash takes the next one literally. */
  function Tokens(pattern: string): seq<Token> {
    if pattern == "" then []
    else if pattern[0] == '\\' && |pattern| > 1 then [Lit(pattern[1])] + Tokens(pattern[2..])
    else [if pattern[0] == '%' then Any else if pattern[0] == '_' then One else Lit(pattern[0])] + Tokens(pattern[1..])
  }

  predicate Matches(tokens: seq<Token>, s: string)
    decreases |tokens|, |s|
  {
    if tokens == [] then s == ""
    else if tokens[0].Any? then Matches(tokens[1..], s) || (s != "" && Matches(tokens, s[1..]))
    else s != "" && (tokens[0].One? || tokens[0].c == s[0]) && Matches(tokens[1..], s[1..])
  }

  function Pattern(q: string): string { "%" + q + "%" }

  predicate ILike(s: string, pattern: string) { Matches(Tokens(Lower(pattern)), Lower(s)) }

  // ---------------------------------------------------------------- the two searches

  /** The fields that the scan looks at; a NULL field matches nothing. */
  predicate ScanMatches(a: Asset, q: string) {
    exists v | v in [a.technical.name, a.technical.qualifiedName, CuratedOf(a, Description), a.technical.description] ::
      v.JText? && ILike(v.text, Pattern(q))
  }

  function TenantAssets(c: Catalog, tenant: string): set<Key> {
    set k | k in c.assets && c.assets[k].tenant == tenant
  }

  function Scan(c: Catalog, tenant: string, q: string, terms: set<Key>): set<Key> {
    set k | k in TenantAssets(c, tenant) && (ScanMatches(c.assets[k], q) || k in terms)
  }

  function ThroughIndex(c: Catalog, tenant: string, q: string, terms: set<Key>): set<Key> {
    set k | k in TenantAssets(c, tenant) && ((k in c.documents && ILike(c.documents[k].text, Pattern(q))) || k in terms)
  }

  /** The query filter of `search_assets`: the index is used as soon as it is not empty. */
  function SearchAssets(c: Catalog, tenant: string, q: string, terms: set<Key>): set<Key> {
    if TenantAssets(c, tenant) * c.documents.Keys != {} then ThroughIndex(c, tenant, q, terms)
    else Scan(c, tenant, q, terms)
  }

  // ---------------------------------------------------------------- patterns

  /** A backslash at the end of a query takes the closing % of the pattern literally. */
  predicate EndsInEscape(q: string) {
    if q == "" then false
    else if q[0] == '\\' then |q| == 1 || EndsInEscape(q[2..])
    else EndsInEscape(q[1..])
  }

  lemma {:induction false} ClosedTokens(q: string)
    requires !EndsInEscape(q)
    ensures Tokens(q + "%") == Tokens(q) + [Any]
  {
    if q == "" {
      assert "%"[1..] == "";
    } else if q[0] == '\\' {
      ClosedTokens(q[2..]);
      assert (q + "%")[2..] == q[2..] + "%";
    } else {
      ClosedTokens(q[1..]);
      assert (q + "%")[1..] == q[1..] + "%";
    }
  }

  lemma PatternTokens(q: string)
    requires !EndsInEscape(q)
    ensures Tokens(Pattern(q)) == [Any] + Tokens(q) + [Any]
  {
    ClosedTokens(q);
    assert Pattern(q)[1..] == q + "%";
  }

  lemma {:induction false} MatchBefore(tokens: seq<Token>, u: string, s: string)
    requires tokens != [] && tokens[0].Any? && Matches(tokens, s)
    ensures Matches(tokens, u + s)
    decreases |u|
  {
    if u == "" {
      assert u + s == s;
    } else {
      MatchBefore(tokens, u[1..], s);
      assert (u + s)[1..] == u[1..] + s;
    }
  }

  lemma {:induction false} AnyMatches(s: string)
    ensures Matches([Any], s)
  {
    if s == "" {
      assert Matches([Any][1..], s);
    } else {
      AnyMatches(s[1..]);
    }
  }

  lemma {:induction false} MatchAfter(tokens: seq<Token>, s: string, v: string)
    requires tokens != [] && tokens[|tokens| - 1].Any? && Matches(tokens, s)
    ensures Matches(tokens, s + v)
    decreases |tokens|, |s|
  {
    if |tokens| == 1 {
      assert tokens == [Any];
      AnyMatches(s + v);
    } else if tokens[0].Any? && Matches(tokens[1..], s) {
      MatchAfter(tokens[1..], s, v);
    } else {
      assert (s + v)[1..] == s[1..] + v;
      MatchAfter(if tokens[0].Any? then tokens else tokens[1..], s[1..], v);
    }
  }

  /** A query that matches a text matches every text around it. */
  lemma ILikeIsMonotone(u: string, s: string, v: string, q: string)
    requires !EndsInEscape(q) && ILike(s, Pattern(q))
    ensures ILike(u + s + v, Pattern(q))
  {
    LowerKeepsEscape(q);
    LowerOfPattern(q);
    PatternTokens(Lower(q));
    assert Lower(u + s + v) == Lower(u) + Lower(s) + Lower(v);
    var t := Tokens(Pattern(Lower(q)));
    MatchBefore(t, Lower(u), Lower(s));
    MatchAfter(t, Lower(u) + Lower(s), Lower(v));
  }

  /** A query that ends in an escape may match a text and miss it with more text behind. */
  lemma EscapeIsNotMonotone()
    ensures EndsInEscape("\\") && ILike("%", Pattern("\\")) && !ILike("% x", Pattern("\\"))
  {
    var t := [Any, Lit('%')];
    assert Lower(Pattern("\\")) == "%\\%" && "%\\%"[1..] == "\\%" && "\\%"[2..] == "";
    assert Tokens("\\%") == [Lit('%')] && Tokens("%\\%") == t;
    assert t[1..] == [Lit('%')] && [Lit('%')][1..] == [];
    assert Lower("%") == "%" && "%"[1..] == "";
    assert Matches([Lit('%')], "%");
    var s := "% x";
    assert Lower(s) == s && s[1..] == " x" && " x"[1..] == "x" && "x"[1..] == "";
    assert !Matches([Lit('%')], "") && !Matches(t, "");
    assert !Matches([Lit('%')], "x") && !Matches(t, "x");
    assert !Matches([Lit('%')], " x") && !Matches(t, " x");
    assert !Matches([], " x") && !Matches([Lit('%')], s);
  }

  lemma LowerOfPattern(q: string)
    ensures Lower(Pattern(q)) == Pattern(Lower(q))
  {
  }

  lemma {:induction false} LowerKeepsEscape(q: string)
    ensures EndsInEscape(Lower(q)) == EndsInEscape(q)
  {
    if q != "" {
      if q[0] == '\\' {
        if |q| > 1 { LowerKeepsEscape(q[2..]); assert Lower(q)[2..] == Lower(q[2..]); }
      } else {
        LowerKeepsEscape(q[1..]);
        assert Lower(q)[1..] == Lower(q[1..]);
      }
    }
  }

  // ---------------------------------------------------------------- what a plain query means

  predicate At(s: string, i: nat, q: string) { i + |q| <= |s| && s[i..i + |q|] == q }

  predicate Contains(s: string, q: string) { exists i | 0 <= i <= |s| :: At(s, i, q) }

  predicate Plain(q: string) { '%' !in q && '_' !in q && '\\' !in q }

  lemma {:induction false} PrefixMatches(q: string, s: string)
    requires Plain(q)
    ensures Matches(Tokens(q) + [Any], s) <==> |q| <= |s| && s[..|q|] == q
  {
    if q == "" {
      assert Tokens(q) + [Any] == [Any];
      AnyMatches(s);
    } else {
      assert Plain(q[1..]);
      var t := Tokens(q) + [Any];
      assert t[0] == Lit(q[0]) && t[1..] == Tokens(q[1..]) + [Any];
      hide Tokens;
      if s != "" {
        PrefixMatches(q[1..], s[1..]);
        hide Matches;
        PrefixStep(q, s);
      }
    }
  }

  lemma PrefixStep(q: string, s: string)
    requires q != "" && s != ""
    ensures |q| <= |s| && s[..|q|] == q <==> q[0] == s[0] && |q[1..]| <= |s[1..]| && s[1..][..|q[1..]|] == q[1..]
  {
  }

  lemma {:induction false} InfixMatches(q: string, s: string)
    requires Plain(q)
    ensures Matches([Any] + (Tokens(q) + [Any]), s) <==> Contains(s, q)
  {
    var rest := Tokens(q) + [Any];
    assert ([Any] + rest)[1..] == rest;
    PrefixMatches(q, s);
    assert Matches(rest, s) <==> At(s, 0, q);
    hide Tokens;
    if s != "" {
      InfixMatches(q, s[1..]);
      forall i: nat | i < |s| ensures At(s[1..], i, q) <==> At(s, i + 1, q) {
        if i + 1 + |q| <= |s| { assert s[1..][i..i + |q|] == s[i + 1..i + 1 + |q|]; }
      }
      if i :| 0 <= i <= |s| && At(s, i, q) && i > 0 { assert At(s[1..], i - 1, q); }
    }
  }

  lemma {:induction false} PlainNeverEscapes(q: string)
    requires Plain(q)
    ensures !EndsInEscape(q)
  {
    if q != "" { PlainNeverEscapes(q[1..]); }
  }

  /** Without wildcards the match is the case-insensitive substring test. */
  lemma ILikeIsContains(s: string, q: string)
    requires Plain(q)
    ensures ILike(s, Pattern(q)) <==> Contains(Lower(s), Lower(q))
  {
    assert Plain(Lower(q));
    PlainNeverEscapes(Lower(q));
    LowerOfPattern(q);
    PatternTokens(Lower(q));
    InfixMatches(Lower(q), Lower(s));
    assert [Any] + (Tokens(Lower(q)) + [Any]) == [Any] + Tokens(Lower(q)) + [Any];
  }

  // ---------------------------------------------------------------- completeness

  lemma {:induction false} PartOfJoin(parts: seq<string>, i: nat) returns (u: string, v: string)
    requires i < |parts|
    ensures Join(parts) == u + parts[i] + v
  {
    if |parts| == 1 {
      u, v := "", "";
    } else if i == 0 {
      u, v := "", " " + Join(parts[1..]);
      assert u + parts[0] + v == parts[0] + " " + Join(parts[1..]);
    } else {
      var w, x := PartOfJoin(parts[1..], i - 1);
      u, v := parts[0] + " " + w, x;
      assert parts[0] + " " + (w + parts[i] + x) == u + parts[i] + v;
    }
  }

  lemma LowerTwice(s: string)
    ensures Lower(Lower(s)) == Lower(s)
  {
  }

  /** Everything a steward or a connector called the asset, its columns and its tags by. */
  predicate Says(a: Asset, text: string) {
    || text in [TextOf(a.technical.name), TextOf(a.technical.qualifiedName), TextOf(CuratedOf(a, Description)),
                TextOf(a.technical.description), TextOf(CuratedOf(a, Owner)), TextOf(CuratedOf(a, Classification))]
    || text in TagTexts(CuratedOf(a, Tags))
    || exists c | c in a.columns :: c.name == text
  }

  lemma PartOfPart(parts: seq<string>, k: nat, texts: seq<string>, text: string) returns (u: string, v: string)
    requires k < |parts| && parts[k] == Join(texts) && text in texts
    ensures Join(parts) == u + text + v
  {
    var i :| 0 <= i < |texts| && texts[i] == text;
    var w, x := PartOfJoin(texts, i);
    var y, z := PartOfJoin(parts, k);
    u, v := y + w, x + z;
    assert y + (w + text + x) + z == u + text + v;
  }

  lemma PartOfDocument(a: Asset, text: string) returns (u: string, v: string)
    requires Says(a, text)
    ensures Join(Parts(a)) == u + text + v
  {
    var parts, first := Parts(a), [
      TextOf(a.technical.name), TextOf(a.technical.qualifiedName), TextOf(CuratedOf(a, Description)),
      TextOf(a.technical.description), TextOf(CuratedOf(a, Owner)), TextOf(CuratedOf(a, Classification))];
    var names := ColumnNames(a.columns);
    hide Join, TagTexts, TextOf, CuratedOf;
    if text in first {
      var i :| 0 <= i < 6 && first[i] == text;
      u, v := PartOfJoin(parts, i);
    } else if text in TagTexts(CuratedOf(a, Tags)) {
      u, v := PartOfPart(parts, 6, TagTexts(CuratedOf(a, Tags)), text);
    } else {
      var c :| c in a.columns && c.name == text;
      var i :| 0 <= i < |a.columns| && a.columns[i] == c;
      assert names[i] == text;
      u, v := PartOfPart(parts, 7, names, text);
    }
  }

  /** A fresh document is found by every query that matches anything the asset says, its owner,
      classification, tags and column names included. */
  lemma IndexCoversEverything(a: Asset, text: string, q: string)
    requires !EndsInEscape(q) && Says(a, text) && ILike(text, Pattern(q))
    ensures ILike(DocumentOf(a).text, Pattern(q))
  {
    var u, v := PartOfDocument(a, text);
    hide Says, Parts, ILike;
    ILikeIsMonotone(u, text, v, q);
    LoweredMatches(Join(Parts(a)), Pattern(q));
    assert DocumentOf(a).text == Lower(Join(Parts(a)));
  }

  lemma LoweredMatches(s: string, pattern: string)
    ensures ILike(Lower(s), pattern) <==> ILike(s, pattern)
  {
    LowerTwice(s);
  }

  /** So it is found by every query that finds the asset in the scan. */
  lemma IndexIsComplete(a: Asset, q: string)
    requires !EndsInEscape(q) && ScanMatches(a, q)
    ensures ILike(DocumentOf(a).text, Pattern(q))
  {
    hide ILike, DocumentOf;
    var v :| v in [a.technical.name, a.technical.qualifiedName, CuratedOf(a, Description), a.technical.description]
             && v.JText? && ILike(v.text, Pattern(q));
    IndexCoversEverything(a, v.text, q);
  }

  // ---------------------------------------------------------------- agreement

  predicate Fresh(c: Catalog, k: Key)
    requires k in c.assets
  {
    k in c.documents && c.documents[k] == DocumentOf(c.assets[k])
  }

  /** Every asset of the tenant has the document of its present text and facets. */
  predicate Agrees(c: Catalog, tenant: string) { forall k | k in TenantAssets(c, tenant) :: Fresh(c, k) }

  /** While the index agrees, a search returns every asset the scan would. */
  lemma SearchIsComplete(c: Catalog, tenant: string, q: string, terms: set<Key>)
    requires Agrees(c, tenant) && !EndsInEscape(q)
    ensures Scan(c, tenant, q, terms) <= SearchAssets(c, tenant, q, terms)
  {
    forall k | k in Scan(c, tenant, q, terms) ensures k in SearchAssets(c, tenant, q, terms) {
      assert Fresh(c, k);
      if ScanMatches(c.assets[k], q) { IndexIsComplete(c.assets[k], q); }
    }
  }

  /** What the index finds for a query without wildcards and spaces is nothing but the assets one of
      whose eight indexed parts contains it. */
  lemma IndexIsSound(a: Asset, q: string)
    requires Plain(q) && ' ' !in q && q != ""
    ensures ILike(DocumentOf(a).text, Pattern(q)) <==>
      exists i | 0 <= i < |Parts(a)| :: Contains(Lower(Parts(a)[i]), Lower(q))
  {
    ILikeIsContains(DocumentOf(a).text, q);
    LowerTwice(Join(Parts(a)));
    var lowered := seq(|Parts(a)|, i requires 0 <= i < |Parts(a)| => Lower(Parts(a)[i]));
    LowerOfJoin(Parts(a), lowered);
    assert ' ' !in Lower(q);
    if Contains(Join(lowered), Lower(q)) {
      var i := FindInJoin(lowered, Lower(q));
    }
    if i :| 0 <= i < |Parts(a)| && Contains(Lower(Parts(a)[i]), Lower(q)) {
      var u, v := PartOfJoin(lowered, i);
      ContainsAround(u, lowered[i], v, Lower(q));
    }
  }

  lemma ContainsAround(u: string, s: string, v: string, q: string)
    requires Contains(s, q)
    ensures Contains(u + s + v, q)
  {
    var i :| 0 <= i <= |s| && At(s, i, q);
    assert At(u + s + v, |u| + i, q);
  }

  lemma {:induction false} LowerOfJoin(parts: seq<string>, lowered: seq<string>)
    requires |lowered| == |parts| && forall i | 0 <= i < |parts| :: lowered[i] == Lower(parts[i])
    ensures Lower(Join(parts)) == Join(lowered)
  {
    if |parts| > 1 {
      LowerOfJoin(parts[1..], lowered[1..]);
      assert Lower(parts[0] + " " + Join(parts[1..])) == Lower(parts[0]) + " " + Lower(Join(parts[1..]));
    }
  }

  lemma {:induction false} FindInJoin(parts: seq<string>, q: string) returns (i: nat)
    requires ' ' !in q && q != "" && Contains(Join(parts), q)
    ensures i < |parts| && Contains(parts[i], q)
  {
    if |parts| == 1 {
      i := 0;
    } else {
      var p, rest := parts[0], Join(parts[1..]);
      var s := p + " " + rest;
      var j :| 0 <= j <= |s| && At(s, j, q);
      assert s[|p|] == ' ';
      if j + |q| <= |p| {
        assert At(p, j, q);
        i := 0;
      } else if j > |p| {
        assert At(rest, j - |p| - 1, q);
        var k := FindInJoin(parts[1..], q);
        i := k + 1;
      } else {
        assert false;
      }
    }
  }

  // ---------------------------------------------------------------- rebuilding

  function DocumentsOf(c: Catalog, keys: set<Key>): map<Key, Document>
    requires keys <= c.assets.Keys
  {
    map k | k in keys :: DocumentOf(c.assets[k])
  }

  function Reindexed(c: Catalog, tenant: string): Catalog {
    c.(documents := c.documents + DocumentsOf(c, TenantAssets(c, tenant)))
  }

  lemma OneMoreDocument(c: Catalog, done: set<Key>, key: Key)
    requires done <= c.assets.Keys && key in c.assets
    ensures c.documents + DocumentsOf(c, done + {key}) ==
      (c.documents + DocumentsOf(c, done))[key := DocumentOf(c.assets[key])]
  {
    hide DocumentOf;
    assert DocumentsOf(c, done + {key}) == DocumentsOf(c, done)[key := DocumentOf(c.assets[key])];
  }

  method ReindexAssets(db: Session, tenant: string) returns (count: nat)
    modifies db`work
    ensures db.work == old(db.work).(catalog := Reindexed(old(db.work).catalog, tenant))
    ensures count == |TenantAssets(old(db.work).catalog, tenant)|
  {
    hide DocumentOf, DocumentsOf;
    var assets, todo := db.work.catalog.assets, TenantAssets(db.work.catalog, tenant);
    ghost var c, all := db.work.catalog, todo;
    count := 0;
    assert DocumentsOf(c, all - todo) == map[] by { NoDocuments(c, all - todo); }
    while todo != {}
      invariant todo <= all && count == |all| - |todo|
      invariant db.work == old(db.work).(catalog := c.(documents := c.documents + DocumentsOf(c, all - todo)))
      decreases todo
    {
      var key :| key in todo;
      OneMoreDocument(c, all - todo, key);
      assert all - (todo - {key}) == all - todo + {key};
      var document := DocumentOf(assets[key]);
      db.work := db.work.(catalog := db.work.catalog.(documents := db.work.catalog.documents[key := document]));
      todo := todo - {key};
      count := count + 1;
    }
    assert all - todo == all;
  }

  lemma NoDocuments(c: Catalog, keys: set<Key>)
    requires keys == {}
    ensures DocumentsOf(c, keys) == map[]
  {
  }

  /** After a rebuild the index agrees, and only documents of the tenant's assets were written. */
  lemma ReindexAgrees(c: Catalog, tenant: string)
    ensures Agrees(Reindexed(c, tenant), tenant) && Reindexed(c, tenant).assets == c.assets
    ensures Reindexed(c, tenant).documents.Keys == c.documents.Keys + TenantAssets(c, tenant)
    ensures forall k | k in c.documents && k !in TenantAssets(c, tenant) ::
      Reindexed(c, tenant).documents[k] == c.documents[k]
  {
  }
}
