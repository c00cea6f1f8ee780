/** The order a loaded model lists its relationships in, where the database sorts names by code point. */
module ModelOrder {
  import opened Common
  import opened IsoStamp
  import opened Numerals
  import opened Sorting
  import opened ModelStore
  import opened ModelRoundTrip

  // ---------------------------------------------------------------------------
  // Relationship keys as text

  lemma ShortKeysAscend(env: Env, i: nat, a: string, j: nat, b: string)
    requires i < j < 10
    ensures TextLess(RelationshipKey(env, i, a), RelationshipKey(env, j, b))
  {
    assert RelationshipKey(env, i, a)[0] == Digit(i) && RelationshipKey(env, j, b)[0] == Digit(j);
  }

  lemma EleventhBeforeThird(env: Env, a: string, b: string)
    ensures TextLess(RelationshipKey(env, 10, a), RelationshipKey(env, 2, b))
  {
    assert Decimal(10) == Decimal(1) + [Digit(0)];
    assert RelationshipKey(env, 10, a)[0] == '1' && RelationshipKey(env, 2, b)[0] == '2';
  }

  /** The keys of a list, taken by position, ascend as text. */
  ghost predicate KeysAscend(env: Env, docs: seq<string>) {
    forall i, j :: 0 <= i < j < |docs| ==> TextLess(RelationshipKey(env, i, docs[i]), RelationshipKey(env, j, docs[j]))
  }

  /** **Keys sort by position exactly up to ten of them**, whatever the relationships are. */
  lemma KeysAscendIff(env: Env, docs: seq<string>)
    ensures KeysAscend(env, docs) <==> |docs| <= 10
  {
    hide RelationshipKey, TextLess;
    if |docs| <= 10 {
      forall i, j | 0 <= i < j < |docs|
        ensures TextLess(RelationshipKey(env, i, docs[i]), RelationshipKey(env, j, docs[j]))
      {
        ShortKeysAscend(env, i, docs[i], j, docs[j]);
      }
    } else {
      EleventhBeforeThird(env, docs[10], docs[2]);
      LessAsymmetric(RelationshipKey(env, 10, docs[10]), RelationshipKey(env, 2, docs[2]));
    }
  }

  lemma {:induction false} LessAsymmetric(a: string, b: string)
    requires TextLess(a, b)
    ensures !TextLess(b, a)
    decreases |a|
  {
    if a != [] && a[0] == b[0] {
      LessAsymmetric(a[1..], b[1..]);
    }
  }

  // ---------------------------------------------------------------------------
  // ORDER BY

  /** ORDER BY name, then by schema for tables, the only rows that have one. */
  predicate NameThenSchema(r: Row, q: Row) {
    if r.name != q.name then TextLess(r.name, q.name) else TextLe(r.schema, q.schema)
  }

  ghost predicate SortsByText(env: Env) {
    forall r, q :: env.rowLe(r, q) <==> NameThenSchema(r, q)
  }

  lemma OrderIsTotal(env: Env)
    requires SortsByText(env)
    ensures TotalOrder(env.rowLe)
  {
    forall r, q
      ensures env.rowLe(r, q) || env.rowLe(q, r)
    {
      TextTotal(r.name, q.name);
      TextTotal(r.schema, q.schema);
    }
    forall r, q, t | env.rowLe(r, q) && env.rowLe(q, t)
      ensures env.rowLe(r, t)
    {
      RowsChain(r, q, t);
    }
  }

  lemma RowsChain(r: Row, q: Row, t: Row)
    requires NameThenSchema(r, q) && NameThenSchema(q, t)
    ensures NameThenSchema(r, t)
  {
    hide TextLess;
    TextTransitive(r.name, q.name, t.name);
    if r.name == q.name == t.name {
      TextTransitive(r.schema, q.schema, t.schema);
    } else if r.name == t.name {
      LessAsymmetric(r.name, q.name);
    }
  }

  // ---------------------------------------------------------------------------
  // What a load returns

  lemma NameDecides(env: Env, org: string, datasource: string, a: Area, i: nat, j: nat)
    requires SortsByText(env) && i < j < |a.relationships|
    ensures var rows := RelationshipRows(env, org, datasource, a);
            env.rowLe(rows[i], rows[j]) <==>
            TextLess(RelationshipKey(env, i, a.relationships[i]), RelationshipKey(env, j, a.relationships[j]))
  {
    KeysDiffer(env, i, a.relationships[i], j, a.relationships[j]);
  }

  lemma RelationshipsOrdered(env: Env, org: string, datasource: string, a: Area)
    requires SortsByText(env)
    ensures Ordered(RelationshipRows(env, org, datasource, a), env.rowLe) <==> |a.relationships| <= 10
  {
    hide RelationshipKey, TextLess, SortsByText;
    forall i, j | 0 <= i < j < |a.relationships|
      ensures var rows := RelationshipRows(env, org, datasource, a);
              env.rowLe(rows[i], rows[j]) <==>
              TextLess(RelationshipKey(env, i, a.relationships[i]), RelationshipKey(env, j, a.relationships[j]))
    {
      NameDecides(env, org, datasource, a, i, j);
    }
    KeysAscendIff(env, a.relationships);
    assert KeysAscend(env, a.relationships) <==> Ordered(RelationshipRows(env, org, datasource, a), env.rowLe);
  }

  /** The relationship rows of an area, as the query returns them. */
  lemma RelationshipsQueried(env: Env, rows: seq<Row>, org: string, datasource: string, m: Model, i: nat)
    requires AreaNamesDiffer(env, m.areas) && i < |m.areas|
    ensures var w := Written(env, rows, org, datasource, m);
            Query(env, w, ARelationship, org, datasource, env.nameOf(m.areas[i].doc)) ==
            Sorted(RelationshipRows(env, org, datasource, m.areas[i]), env.rowLe)
  {
    BlockFound(env, rows, org, datasource, m, i, ARelationship);
  }

  lemma StoredAs(env: Env, org: string, datasource: string, a: Area)
    ensures var rows := RelationshipRows(env, org, datasource, a);
            |rows| == |a.relationships| && forall k :: 0 <= k < |rows| ==> rows[k].doc == a.relationships[k]
  {
  }

  /** A row is one of those stored, at the place of its document. */
  lemma RowOfDoc(env: Env, org: string, datasource: string, a: Area, back: seq<Row>, k: nat) returns (j: nat)
    requires multiset(back) == multiset(RelationshipRows(env, org, datasource, a)) && k < |back|
    ensures j < |a.relationships| && back[k] == RelationshipRows(env, org, datasource, a)[j]
    ensures back[k].doc == a.relationships[j]
  {
    hide *;
    var rows := RelationshipRows(env, org, datasource, a);
    StoredAs(env, org, datasource, a);
    assert back[k] in multiset(back);
    assert back[k] in rows;
    j :| 0 <= j < |rows| && rows[j] == back[k];
  }

  lemma DistinctDocsTellRows(env: Env, org: string, datasource: string, a: Area, back: seq<Row>)
    requires Unique(a.relationships)
    requires multiset(back) == multiset(RelationshipRows(env, org, datasource, a))
    requires Docs(back) == a.relationships
    ensures back == RelationshipRows(env, org, datasource, a)
  {
    hide Relationships, RelationshipRows, Docs;
    var rows := RelationshipRows(env, org, datasource, a);
    assert |multiset(back)| == |back| && |multiset(rows)| == |rows|;
    forall k | 0 <= k < |back|
      ensures back[k] == rows[k]
    {
      var j := RowOfDoc(env, org, datasource, a, back, k);
      assert Docs(back)[k] == back[k].doc;
    }
  }

  /** **Relationships come back in their order exactly up to ten of them.** Ten or fewer always do;
      with more, an area of distinct relationships never does. */
  lemma LoadKeepsOrderIff(env: Env, rows: seq<Row>, org: string, datasource: string, m: Model, i: nat)
    requires SortsByText(env)
    requires AreaNamesDiffer(env, m.areas) && i < |m.areas|
    ensures var a := m.areas[i];
            var w := Written(env, rows, org, datasource, m);
            var back := LoadArea(env, w, org, datasource, AreaRow(env, org, datasource, a));
            && Load(env, w, org, datasource).Some?
            && back in Load(env, w, org, datasource).value.areas
            && (|a.relationships| <= 10 ==> back.relationships == a.relationships)
            && (|a.relationships| > 10 && Unique(a.relationships) ==> back.relationships != a.relationships)
  {
    hide Written, Query, Load, RelationshipRows, SortsByText, AreaNamesDiffer, AreaRow, Sorted, Ordered;
    var a := m.areas[i];
    var w := Written(env, rows, org, datasource, m);
    var stored := RelationshipRows(env, org, datasource, a);
    var found := Sorted(stored, env.rowLe);
    RelationshipsQueried(env, rows, org, datasource, m, i);
    LoadedRelationships(env, w, org, datasource, a);
    RelationshipsOrdered(env, org, datasource, a);
    StoredDocs(env, org, datasource, a);
    AreaLoaded(env, rows, org, datasource, m, i);
    if |a.relationships| <= 10 {
      SortedStays(stored, env.rowLe);
    } else {
      OrderIsTotal(env);
      SortedOrdered(stored, env.rowLe);
      SortedHolds(stored, env.rowLe);
      if Unique(a.relationships) && Docs(found) == a.relationships {
        DistinctDocsTellRows(env, org, datasource, a, found);
      }
    }
  }

  lemma LoadedRelationships(env: Env, w: seq<Row>, org: string, datasource: string, a: Area)
    ensures LoadArea(env, w, org, datasource, AreaRow(env, org, datasource, a)).relationships ==
            Docs(Query(env, w, ARelationship, org, datasource, env.nameOf(a.doc)))
  {
  }

  lemma StoredDocs(env: Env, org: string, datasource: string, a: Area)
    ensures Docs(RelationshipRows(env, org, datasource, a)) == a.relationships
  {
  }

  lemma {:induction false} LoadsEach(env: Env, w: seq<Row>, org: string, datasource: string, found: seq<Row>, r: Row)
    requires r in found
    ensures LoadArea(env, w, org, datasource, r) in LoadAreas(env, w, org, datasource, found)
    decreases |found|
  {
    hide LoadArea;
    if r != found[0] {
      LoadsEach(env, w, org, datasource, found[1..], r);
    }
  }

  lemma {:induction false} OnlyHolds(env: Env, org: string, datasource: string, areas: seq<Area>, i: nat)
    requires i < |areas|
    ensures AreaRow(env, org, datasource, areas[i]) in AreaRowsOnly(env, org, datasource, areas)
    decreases |areas|
  {
    if i > 0 {
      OnlyHolds(env, org, datasource, areas[1..], i - 1);
    }
  }

  /** Every written area is one of the loaded model's. */
  lemma AreaLoaded(env: Env, rows: seq<Row>, org: string, datasource: string, m: Model, i: nat)
    requires i < |m.areas|
    ensures var w := Written(env, rows, org, datasource, m);
            && Load(env, w, org, datasource).Some?
            && LoadArea(env, w, org, datasource, AreaRow(env, org, datasource, m.areas[i]))
               in Load(env, w, org, datasource).value.areas
  {
    var w := Written(env, rows, org, datasource, m);
    hide Written, Query, LoadAreas, LoadArea, AreaRowsOnly, AreaRow, Sorted;
    TopsFound(env, rows, org, datasource, m);
    var only := AreaRowsOnly(env, org, datasource, m.areas);
    SortedHolds(only, env.rowLe);
    OnlyHolds(env, org, datasource, m.areas, i);
    assert AreaRow(env, org, datasource, m.areas[i]) in multiset(Sorted(only, env.rowLe));
    LoadsEach(env, w, org, datasource, Sorted(only, env.rowLe), AreaRow(env, org, datasource, m.areas[i]));
  }
}
