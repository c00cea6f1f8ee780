/** Writing a model and reading it back; writing it twice; everyone else's rows. */
module ModelRoundTrip {
  import opened Common
  import opened Sorting
  import opened ModelStore

  // ---------------------------------------------------------------------------
  // Bags

  function Image<A, B>(s: seq<A>, f: A -> B): multiset<B> {
    if s == [] then multiset{} else multiset{f(s[0])} + Image(s[1..], f)
  }

  lemma ImageStep<A, B>(s: seq<A>, f: A -> B)
    ensures Image(s, f) == if s == [] then multiset{} else multiset{f(s[0])} + Image(s[1..], f)
  {
  }

  lemma {:induction false} ImageConcat<A, B>(a: seq<A>, b: seq<A>, f: A -> B)
    ensures Image(a + b, f) == Image(a, f) + Image(b, f)
    decreases |a|
  {
    hide Image;
    ImageStep(a, f);
    if a == [] {
      assert a + b == b;
    } else {
      ImageConcat(a[1..], b, f);
      ImageStep(a + b, f);
      assert (a + b)[1..] == a[1..] + b;
    }
  }

  /** An element may be taken out anywhere. */
  lemma ImageWithout<A, B>(s: seq<A>, k: nat, f: A -> B)
    requires k < |s|
    ensures Image(s, f) == multiset{f(s[k])} + Image(s[..k] + s[k + 1..], f)
  {
    hide Image;
    assert s == s[..k] + ([s[k]] + s[k + 1..]);
    ImageConcat(s[..k], [s[k]] + s[k + 1..], f);
    ImageConcat(s[..k], s[k + 1..], f);
    ImageStep([s[k]] + s[k + 1..], f);
    assert ([s[k]] + s[k + 1..])[1..] == s[k + 1..];
  }

  lemma MultisetWithout<A>(s: seq<A>, k: nat)
    requires k < |s|
    ensures multiset(s) == multiset{s[k]} + multiset(s[..k] + s[k + 1..])
  {
    assert s == s[..k] + ([s[k]] + s[k + 1..]);
  }

  lemma SameRest<A>(a: seq<A>, b: seq<A>, k: nat)
    requires a != [] && k < |b| && multiset(a) == multiset(b) && b[k] == a[0]
    ensures multiset(a[1..]) == multiset(b[..k] + b[k + 1..])
  {
    MultisetWithout(a, 0);
    MultisetWithout(b, k);
    assert a[..0] + a[1..] == a[1..];
    var one := multiset{a[0]};
    assert multiset(a) - one == multiset(a[1..]) && multiset(b) - one == multiset(b[..k] + b[k + 1..]);
  }

  /** An image depends on what is in the list, not on its order. */
  lemma {:induction false} ImagePermutes<A, B>(a: seq<A>, b: seq<A>, f: A -> B)
    requires multiset(a) == multiset(b)
    ensures Image(a, f) == Image(b, f)
    decreases |a|
  {
    hide Image;
    if a == [] {
      assert |multiset(b)| == 0;
    } else {
      assert a[0] in multiset(b);
      var k :| 0 <= k < |b| && b[k] == a[0];
      SameRest(a, b, k);
      ImagePermutes(a[1..], b[..k] + b[k + 1..], f);
      ImageWithout(b, k, f);
      ImageStep(a, f);
    }
  }

  lemma {:induction false} DocsImage(rows: seq<Row>)
    ensures multiset(Docs(rows)) == Image(rows, (r: Row) => r.doc)
    decreases |rows|
  {
    if rows != [] {
      DocsImage(rows[1..]);
    }
  }

  lemma DocsPermute(a: seq<Row>, b: seq<Row>)
    requires multiset(a) == multiset(b)
    ensures multiset(Docs(a)) == multiset(Docs(b))
  {
    DocsImage(a);
    DocsImage(b);
    ImagePermutes(a, b, (r: Row) => r.doc);
  }

  // ---------------------------------------------------------------------------
  // What a query finds after a write

  /** The rows of a query, before they are put in order. */
  function Found(rows: seq<Row>, kind: Kind, org: string, datasource: string, area: string): seq<Row> {
    Pick(rows, (r: Row) => r.kind == kind && r.Of(org, datasource) && r.area == area)
  }

  lemma QueryIsFound(env: Env, rows: seq<Row>, kind: Kind, org: string, datasource: string, area: string)
    ensures Query(env, rows, kind, org, datasource, area) == Sorted(Found(rows, kind, org, datasource, area), env.rowLe)
  {
  }

  /** A query of the written datasource sees only the written rows. */
  lemma FoundInWritten(env: Env, rows: seq<Row>, org: string, datasource: string, m: Model, kind: Kind, area: string)
    ensures Found(Written(env, rows, org, datasource, m), kind, org, datasource, area) ==
            Found(RowsOf(env, org, datasource, m), kind, org, datasource, area)
  {
    var p := (r: Row) => r.kind == kind && r.Of(org, datasource) && r.area == area;
    PickConcat(Others(rows, org, datasource), RowsOf(env, org, datasource, m), p);
    forall r | r in Others(rows, org, datasource) ensures !p(r) {
      PickMember(rows, (r: Row) => !r.Of(org, datasource), r);
    }
    PickNone(Others(rows, org, datasource), p);
  }

  lemma FoundAll(rows: seq<Row>, kind: Kind, org: string, datasource: string, area: string)
    requires forall r :: r in rows ==> r.kind == kind && r.Of(org, datasource) && r.area == area
    ensures Found(rows, kind, org, datasource, area) == rows
  {
    PickAll(rows, (r: Row) => r.kind == kind && r.Of(org, datasource) && r.area == area);
  }

  lemma FoundNone(rows: seq<Row>, kind: Kind, org: string, datasource: string, area: string)
    requires forall r :: r in rows ==> r.kind != kind || r.area != area
    ensures Found(rows, kind, org, datasource, area) == []
  {
    PickNone(rows, (r: Row) => r.kind == kind && r.Of(org, datasource) && r.area == area);
  }

  lemma FoundConcat(a: seq<Row>, b: seq<Row>, kind: Kind, org: string, datasource: string, area: string)
    ensures Found(a + b, kind, org, datasource, area) ==
            Found(a, kind, org, datasource, area) + Found(b, kind, org, datasource, area)
  {
    PickConcat(a, b, (r: Row) => r.kind == kind && r.Of(org, datasource) && r.area == area);
  }

  /** The block of one kind among the rows of an area. */
  function Block(env: Env, org: string, datasource: string, a: Area, kind: Kind): seq<Row> {
    match kind
    case TheDatasource => []
    case AnArea => [AreaRow(env, org, datasource, a)]
    case ATable => TableRows(env, org, datasource, a)
    case AMetric => MetricRows(env, org, datasource, a)
    case AnEntity => EntityRows(env, org, datasource, a)
    case ARelationship => RelationshipRows(env, org, datasource, a)
  }

  function AreaOf(env: Env, a: Area, kind: Kind): string {
    if kind == AnArea then "" else env.nameOf(a.doc)
  }

  lemma FoundBlock(env: Env, org: string, datasource: string, a: Area, kind: Kind, block: Kind, area: string)
    ensures Found(Block(env, org, datasource, a, block), kind, org, datasource, area) ==
            if block == kind && area == AreaOf(env, a, kind) then Block(env, org, datasource, a, kind) else []
  {
    if block == kind && area == AreaOf(env, a, kind) {
      FoundAll(Block(env, org, datasource, a, block), kind, org, datasource, area);
    } else {
      FoundNone(Block(env, org, datasource, a, block), kind, org, datasource, area);
    }
  }

  lemma FoundInArea(env: Env, org: string, datasource: string, a: Area, kind: Kind, area: string)
    ensures Found(AreaRows(env, org, datasource, a), kind, org, datasource, area) ==
            if area == AreaOf(env, a, kind) then Block(env, org, datasource, a, kind) else []
  {
    var top, tables := Block(env, org, datasource, a, AnArea), Block(env, org, datasource, a, ATable);
    var metrics, entities := Block(env, org, datasource, a, AMetric), Block(env, org, datasource, a, AnEntity);
    var relationships := Block(env, org, datasource, a, ARelationship);
    assert AreaRows(env, org, datasource, a) == top + tables + metrics + entities + relationships;
    hide Found, AreaRows, TableRows, MetricRows, EntityRows, RelationshipRows, AreaOf;
    FoundConcat(top + tables + metrics + entities, relationships, kind, org, datasource, area);
    FoundConcat(top + tables + metrics, entities, kind, org, datasource, area);
    FoundConcat(top + tables, metrics, kind, org, datasource, area);
    FoundConcat(top, tables, kind, org, datasource, area);
    FoundBlock(env, org, datasource, a, kind, AnArea, area);
    FoundBlock(env, org, datasource, a, kind, ATable, area);
    FoundBlock(env, org, datasource, a, kind, AMetric, area);
    FoundBlock(env, org, datasource, a, kind, AnEntity, area);
    FoundBlock(env, org, datasource, a, kind, ARelationship, area);
  }

  lemma AreasRowsStep(env: Env, org: string, datasource: string, areas: seq<Area>)
    requires areas != []
    ensures AreasRows(env, org, datasource, areas) ==
            AreaRows(env, org, datasource, areas[0]) + AreasRows(env, org, datasource, areas[1..])
  {
  }

  /** What the first area adds to a search of all of them. */
  lemma FoundStep(env: Env, org: string, datasource: string, areas: seq<Area>, kind: Kind, area: string)
    requires areas != []
    ensures Found(AreasRows(env, org, datasource, areas), kind, org, datasource, area) ==
            (if area == AreaOf(env, areas[0], kind) then Block(env, org, datasource, areas[0], kind) else [])
            + Found(AreasRows(env, org, datasource, areas[1..]), kind, org, datasource, area)
  {
    hide *;
    AreasRowsStep(env, org, datasource, areas);
    FoundConcat(AreaRows(env, org, datasource, areas[0]), AreasRows(env, org, datasource, areas[1..]), kind, org,
                datasource, area);
    FoundInArea(env, org, datasource, areas[0], kind, area);
  }

  lemma FoundEmpty(env: Env, org: string, datasource: string, kind: Kind, area: string)
    ensures Found(AreasRows(env, org, datasource, []), kind, org, datasource, area) == []
  {
    FoundNone([], kind, org, datasource, area);
  }

  lemma OthersNamed(env: Env, areas: seq<Area>)
    requires areas != [] && AreaNamesDiffer(env, areas)
    ensures AreaNamesDiffer(env, areas[1..]) && NoneNamed(env, areas[1..], env.nameOf(areas[0].doc))
    ensures forall i :: 0 < i < |areas| ==> env.nameOf(areas[i].doc) != env.nameOf(areas[0].doc)
  {
  }

  lemma NoneNamedStep(env: Env, areas: seq<Area>, name: string)
    requires areas != [] && NoneNamed(env, areas, name)
    ensures env.nameOf(areas[0].doc) != name && NoneNamed(env, areas[1..], name)
  {
  }

  lemma AreaOfIs(env: Env, a: Area, kind: Kind)
    ensures AreaOf(env, a, kind) == if kind == AnArea then "" else env.nameOf(a.doc)
  {
  }

  /** Among areas of other names nothing is found. */
  lemma {:induction false} FoundElsewhere(env: Env, org: string, datasource: string, areas: seq<Area>, kind: Kind,
                                          area: string)
    requires kind != AnArea && NoneNamed(env, areas, area)
    ensures Found(AreasRows(env, org, datasource, areas), kind, org, datasource, area) == []
    decreases |areas|
  {
    hide *;
    if areas == [] {
      FoundEmpty(env, org, datasource, kind, area);
    } else {
      NoneNamedStep(env, areas, area);
      FoundStep(env, org, datasource, areas, kind, area);
      AreaOfIs(env, areas[0], kind);
      FoundElsewhere(env, org, datasource, areas[1..], kind, area);
    }
  }

  /** An area's objects are found by the area's name. */
  lemma {:induction false} FoundByArea(env: Env, org: string, datasource: string, areas: seq<Area>, i: nat, kind: Kind)
    requires i < |areas| && kind != AnArea && AreaNamesDiffer(env, areas)
    ensures Found(AreasRows(env, org, datasource, areas), kind, org, datasource, env.nameOf(areas[i].doc)) ==
            Block(env, org, datasource, areas[i], kind)
    decreases |areas|
  {
    hide *;
    var area := env.nameOf(areas[i].doc);
    OthersNamed(env, areas);
    FoundStep(env, org, datasource, areas, kind, area);
    AreaOfIs(env, areas[0], kind);
    if i == 0 {
      FoundElsewhere(env, org, datasource, areas[1..], kind, area);
    } else {
      FoundByArea(env, org, datasource, areas[1..], i - 1, kind);
    }
  }

  function AreaRowsOnly(env: Env, org: string, datasource: string, areas: seq<Area>): seq<Row> {
    if areas == [] then []
    else [AreaRow(env, org, datasource, areas[0])] + AreaRowsOnly(env, org, datasource, areas[1..])
  }

  lemma {:induction false} FoundAreas(env: Env, org: string, datasource: string, areas: seq<Area>)
    ensures Found(AreasRows(env, org, datasource, areas), AnArea, org, datasource, "") ==
            AreaRowsOnly(env, org, datasource, areas)
    decreases |areas|
  {
    hide Found, AreasRows, AreaRow;
    if areas == [] {
      FoundEmpty(env, org, datasource, AnArea, "");
    } else {
      FoundStep(env, org, datasource, areas, AnArea, "");
      FoundAreas(env, org, datasource, areas[1..]);
    }
  }

  lemma FoundTop(env: Env, org: string, datasource: string, m: Model, kind: Kind, area: string)
    ensures Found(RowsOf(env, org, datasource, m), kind, org, datasource, area) ==
            Found([TopRow(org, datasource, m.doc)], kind, org, datasource, area)
            + Found(AreasRows(env, org, datasource, m.areas), kind, org, datasource, area)
    ensures Found([TopRow(org, datasource, m.doc)], kind, org, datasource, area) ==
            if kind == TheDatasource && area == "" then [TopRow(org, datasource, m.doc)] else []
  {
    FoundConcat([TopRow(org, datasource, m.doc)], AreasRows(env, org, datasource, m.areas), kind, org, datasource,
                area);
    if kind == TheDatasource && area == "" {
      FoundAll([TopRow(org, datasource, m.doc)], kind, org, datasource, area);
    } else {
      FoundNone([TopRow(org, datasource, m.doc)], kind, org, datasource, area);
    }
  }

  // ---------------------------------------------------------------------------
  // Rebuilding

  /** The rows of one kind a query finds after a write. */
  lemma BlockFound(env: Env, rows: seq<Row>, org: string, datasource: string, m: Model, i: nat, kind: Kind)
    requires AreaNamesDiffer(env, m.areas) && i < |m.areas| && kind in {ATable, AMetric, AnEntity, ARelationship}
    ensures var w := Written(env, rows, org, datasource, m);
            Query(env, w, kind, org, datasource, env.nameOf(m.areas[i].doc)) ==
            Sorted(Block(env, org, datasource, m.areas[i], kind), env.rowLe)
  {
    var area := env.nameOf(m.areas[i].doc);
    var w := Written(env, rows, org, datasource, m);
    hide Found, RowsOf, AreasRows, Block, AreaNamesDiffer, Query, Sorted, Written;
    QueryIsFound(env, w, kind, org, datasource, area);
    FoundInWritten(env, rows, org, datasource, m, kind, area);
    FoundTop(env, org, datasource, m, kind, area);
    FoundByArea(env, org, datasource, m.areas, i, kind);
    assert [] + Block(env, org, datasource, m.areas[i], kind) == Block(env, org, datasource, m.areas[i], kind);
  }

  /** The documents of one kind come back as they were, in some order. */
  lemma DocsBack(env: Env, rows: seq<Row>, org: string, datasource: string, m: Model, i: nat, kind: Kind)
    requires AreaNamesDiffer(env, m.areas) && i < |m.areas| && kind in {ATable, AMetric, AnEntity, ARelationship}
    ensures var w := Written(env, rows, org, datasource, m);
            multiset(Docs(Query(env, w, kind, org, datasource, env.nameOf(m.areas[i].doc)))) ==
            multiset(Docs(Block(env, org, datasource, m.areas[i], kind)))
  {
    hide Block, AreaNamesDiffer, Docs, Query, Sorted, Written;
    BlockFound(env, rows, org, datasource, m, i, kind);
    SortedHolds(Block(env, org, datasource, m.areas[i], kind), env.rowLe);
    DocsPermute(Sorted(Block(env, org, datasource, m.areas[i], kind), env.rowLe),
                Block(env, org, datasource, m.areas[i], kind));
  }

  lemma BlockDocs(env: Env, org: string, datasource: string, a: Area)
    ensures Docs(Block(env, org, datasource, a, ATable)) == a.tables
    ensures Docs(Block(env, org, datasource, a, AMetric)) == a.metrics
    ensures Docs(Block(env, org, datasource, a, AnEntity)) == a.entities
    ensures Docs(Block(env, org, datasource, a, ARelationship)) == a.relationships
  {
  }

  lemma AreaBack(env: Env, rows: seq<Row>, org: string, datasource: string, m: Model, i: nat)
    requires AreaNamesDiffer(env, m.areas) && i < |m.areas|
    ensures BagOfArea(LoadArea(env, Written(env, rows, org, datasource, m), org, datasource,
                               AreaRow(env, org, datasource, m.areas[i]))) == BagOfArea(m.areas[i])
  {
    hide Query, Written, Docs, Block, AreaNamesDiffer;
    DocsBack(env, rows, org, datasource, m, i, ATable);
    DocsBack(env, rows, org, datasource, m, i, AMetric);
    DocsBack(env, rows, org, datasource, m, i, AnEntity);
    DocsBack(env, rows, org, datasource, m, i, ARelationship);
    BlockDocs(env, org, datasource, m.areas[i]);
  }

  lemma {:induction false} LoadedBags(env: Env, rows: seq<Row>, org: string, datasource: string, found: seq<Row>)
    ensures BagsOf(LoadAreas(env, rows, org, datasource, found)) ==
            Image(found, (r: Row) => BagOfArea(LoadArea(env, rows, org, datasource, r)))
    decreases |found|
  {
    if found != [] {
      LoadedBags(env, rows, org, datasource, found[1..]);
      assert LoadAreas(env, rows, org, datasource, found)[1..] == LoadAreas(env, rows, org, datasource, found[1..]);
    }
  }

  lemma {:induction false} BagsBack(env: Env, rows: seq<Row>, org: string, datasource: string, m: Model, from: nat)
    requires AreaNamesDiffer(env, m.areas) && from <= |m.areas|
    ensures Image(AreaRowsOnly(env, org, datasource, m.areas[from..]),
                  (r: Row) => BagOfArea(LoadArea(env, Written(env, rows, org, datasource, m), org, datasource, r))) ==
            BagsOf(m.areas[from..])
    decreases |m.areas| - from
  {
    if from < |m.areas| {
      BagsBack(env, rows, org, datasource, m, from + 1);
      AreaBack(env, rows, org, datasource, m, from);
      hide LoadArea, Written, BagOfArea, AreaNamesDiffer, AreaRow;
      assert m.areas[from..][1..] == m.areas[from + 1..];
      var only := AreaRowsOnly(env, org, datasource, m.areas[from..]);
      assert only[1..] == AreaRowsOnly(env, org, datasource, m.areas[from + 1..]);
    }
  }

  /** What the two outer queries find after a write. */
  lemma TopsFound(env: Env, rows: seq<Row>, org: string, datasource: string, m: Model)
    ensures var w := Written(env, rows, org, datasource, m);
            && Query(env, w, TheDatasource, org, datasource, "") == [TopRow(org, datasource, m.doc)]
            && Query(env, w, AnArea, org, datasource, "") ==
               Sorted(AreaRowsOnly(env, org, datasource, m.areas), env.rowLe)
  {
    var w := Written(env, rows, org, datasource, m);
    hide Found, RowsOf, AreasRows, Written, Query, AreaRowsOnly;
    QueryIsFound(env, w, TheDatasource, org, datasource, "");
    FoundInWritten(env, rows, org, datasource, m, TheDatasource, "");
    FoundTop(env, org, datasource, m, TheDatasource, "");
    NoTopAmongAreas(env, org, datasource, m.areas);
    SortedOne(TopRow(org, datasource, m.doc), env.rowLe);
    QueryIsFound(env, w, AnArea, org, datasource, "");
    FoundInWritten(env, rows, org, datasource, m, AnArea, "");
    FoundTop(env, org, datasource, m, AnArea, "");
    FoundAreas(env, org, datasource, m.areas);
    var only := AreaRowsOnly(env, org, datasource, m.areas);
    assert [] + only == only && [TopRow(org, datasource, m.doc)] + [] == [TopRow(org, datasource, m.doc)];
  }

  /** **A model with unique names per area comes back as it was written, up to the order of each
      collection.** */
  lemma RoundTrip(env: Env, rows: seq<Row>, org: string, datasource: string, m: Model)
    requires NamesUnique(env, m)
    ensures var back := Load(env, Written(env, rows, org, datasource, m), org, datasource);
            back.Some? && BagOf(back.value) == BagOf(m)
  {
    var w := Written(env, rows, org, datasource, m);
    hide Written, Query, LoadAreas, LoadArea, BagsOf, AreaNamesDiffer, AllAreasUnique, AreaRowsOnly, Sorted;
    TopsFound(env, rows, org, datasource, m);
    var only := AreaRowsOnly(env, org, datasource, m.areas);
    SortedHolds(only, env.rowLe);
    LoadedBags(env, w, org, datasource, Sorted(only, env.rowLe));
    ImagePermutes(Sorted(only, env.rowLe), only, (r: Row) => BagOfArea(LoadArea(env, w, org, datasource, r)));
    BagsBack(env, rows, org, datasource, m, 0);
    assert m.areas[0..] == m.areas;
  }

  lemma SortedOne<T>(x: T, le: (T, T) -> bool)
    ensures Sorted([x], le) == [x]
  {
  }

  lemma {:induction false} NoTopAmongAreas(env: Env, org: string, datasource: string, areas: seq<Area>)
    ensures Found(AreasRows(env, org, datasource, areas), TheDatasource, org, datasource, "") == []
    decreases |areas|
  {
    var rows := AreasRows(env, org, datasource, areas);
    forall r | r in rows ensures r.kind != TheDatasource {
      var i := AreasFrom(env, org, datasource, areas, r);
      AreaRowShape(env, org, datasource, areas[i], r);
    }
    FoundNone(rows, TheDatasource, org, datasource, "");
  }

  // ---------------------------------------------------------------------------
  // Twice, and elsewhere

  /** **Writing a model twice leaves exactly the rows of writing it once.** */
  lemma WriteIdempotent(env: Env, rows: seq<Row>, org: string, datasource: string, m: Model)
    ensures Written(env, Written(env, rows, org, datasource, m), org, datasource, m) ==
            Written(env, rows, org, datasource, m)
  {
    hide Pick, RowsOf;
    var p := (r: Row) => !r.Of(org, datasource);
    var kept, written := Others(rows, org, datasource), RowsOf(env, org, datasource, m);
    PickConcat(kept, written, p);
    PickPick(rows, p, p);
    RowsAreOf(env, org, datasource, m);
    PickNone(written, p);
  }

  /** **Rows of every other organization and datasource stay as they were**, and so do their models. */
  lemma OthersUnchanged(env: Env, rows: seq<Row>, org: string, datasource: string, m: Model, org2: string,
                        datasource2: string)
    requires org2 != org || datasource2 != datasource
    ensures var w := Written(env, rows, org, datasource, m);
            && Pick(w, (r: Row) => r.Of(org2, datasource2)) == Pick(rows, (r: Row) => r.Of(org2, datasource2))
            && Load(env, w, org2, datasource2) == Load(env, rows, org2, datasource2)
  {
    var w := Written(env, rows, org, datasource, m);
    OtherPicks(env, rows, org, datasource, m, org2, datasource2, (r: Row) => r.Of(org2, datasource2));
    forall kind, area
      ensures Query(env, w, kind, org2, datasource2, area) == Query(env, rows, kind, org2, datasource2, area)
    {
      OtherPicks(env, rows, org, datasource, m, org2, datasource2,
                 (r: Row) => r.kind == kind && r.Of(org2, datasource2) && r.area == area);
    }
    hide Query, Written;
    SameLoad(env, w, rows, org2, datasource2, Query(env, rows, AnArea, org2, datasource2, ""));
  }

  lemma OtherPicks(env: Env, rows: seq<Row>, org: string, datasource: string, m: Model, org2: string,
                   datasource2: string, q: Row -> bool)
    requires org2 != org || datasource2 != datasource
    requires forall r :: q(r) ==> r.Of(org2, datasource2)
    ensures Pick(Written(env, rows, org, datasource, m), q) == Pick(rows, q)
  {
    var p := (r: Row) => !r.Of(org, datasource);
    PickConcat(Others(rows, org, datasource), RowsOf(env, org, datasource, m), q);
    PickPick(rows, p, q);
    RowsAreOf(env, org, datasource, m);
    PickNone(RowsOf(env, org, datasource, m), q);
  }

  lemma {:induction false} SameLoad(env: Env, a: seq<Row>, b: seq<Row>, org: string, datasource: string,
                                    found: seq<Row>)
    requires forall kind, area ::
               Query(env, a, kind, org, datasource, area) == Query(env, b, kind, org, datasource, area)
    ensures LoadAreas(env, a, org, datasource, found) == LoadAreas(env, b, org, datasource, found)
    decreases |found|
  {
    hide Query;
    if found != [] {
      SameLoad(env, a, b, org, datasource, found[1..]);
    }
  }
}
