/** The served model as rows: writing a model, and rebuilding it. */
module ModelStore {
  import opened Common
  import opened IsoStamp
  import opened Numerals
  import opened Sorting

  /** A subject area and its four collections. Every object stands for its document, which names it. */
  datatype Area = Area(doc: string, tables: seq<string>, metrics: seq<string>, entities: seq<string>,
                       relationships: seq<string>)
  datatype Model = Model(doc: string, areas: seq<Area>)

  /** What a document says: its name, the schema a table is stored under and the readable part of a
      relationship's key. `nameLe` and `rowLe` are the database's orders. */
  datatype Env = Env(nameOf: string -> string, schemaOf: string -> string, edgeOf: string -> string,
                     rowLe: (Row, Row) -> bool)

  datatype Kind = TheDatasource | AnArea | ATable | AMetric | AnEntity | ARelationship

  /** A row of one of the six tables; a column a table lacks is empty. All but `doc` is the key. */
  datatype Row = Row(kind: Kind, org: string, datasource: string, area: string, name: string, schema: string,
                     doc: string) {
    predicate SameKey(that: Row) {
      this.(doc := that.doc) == that
    }

    predicate Of(org: string, datasource: string) {
      this.org == org && this.datasource == datasource
    }
  }

  // ---------------------------------------------------------------------------
  // Relationship keys

  function RelationshipKey(env: Env, position: nat, doc: string): string {
    Decimal(position) + ":" + env.edgeOf(doc)
  }

  function ColonAt(s: string): (n: nat)
    ensures n <= |s| && (forall k :: 0 <= k < n ==> s[k] != ':') && (n < |s| ==> s[n] == ':')
  {
    if s == [] || s[0] == ':' then 0 else 1 + ColonAt(s[1..])
  }

  /** **The position and the readable part can be read back from the key**, so no two positions of a list
      share one. */
  lemma KeyReads(env: Env, position: nat, doc: string)
    ensures var key := RelationshipKey(env, position, doc);
            && Value(key[..ColonAt(key)]) == position
            && ColonAt(key) < |key| && key[ColonAt(key) + 1..] == env.edgeOf(doc)
  {
    DecimalReads(position);
    var d, key := Decimal(position), RelationshipKey(env, position, doc);
    assert key[|d|] == ':' && forall k :: 0 <= k < |d| ==> key[k] == d[k] && d[k] in d;
    assert ColonAt(key) == |d| && key[..|d|] == d;
  }

  lemma KeysDiffer(env: Env, i: nat, a: string, j: nat, b: string)
    requires i != j
    ensures RelationshipKey(env, i, a) != RelationshipKey(env, j, b)
  {
    KeyReads(env, i, a);
    KeyReads(env, j, b);
  }

  // ---------------------------------------------------------------------------
  // The rows of a model

  function Objects(kind: Kind, org: string, datasource: string, area: string, name: string -> string,
                   schema: string -> string, docs: seq<string>): (r: seq<Row>)
    ensures |r| == |docs|
    ensures forall k :: 0 <= k < |r| ==>
              r[k] == Row(kind, org, datasource, area, name(docs[k]), schema(docs[k]), docs[k])
  {
    if docs == [] then []
    else [Row(kind, org, datasource, area, name(docs[0]), schema(docs[0]), docs[0])]
         + Objects(kind, org, datasource, area, name, schema, docs[1..])
  }

  function Relationships(env: Env, org: string, datasource: string, area: string, docs: seq<string>,
                         from: nat): (r: seq<Row>)
    requires from <= |docs|
    ensures |r| == |docs| - from
    ensures forall k :: 0 <= k < |r| ==>
              r[k] == Row(ARelationship, org, datasource, area, RelationshipKey(env, from + k, docs[from + k]), "",
                          docs[from + k])
    decreases |docs| - from
  {
    if from == |docs| then []
    else [Row(ARelationship, org, datasource, area, RelationshipKey(env, from, docs[from]), "", docs[from])]
         + Relationships(env, org, datasource, area, docs, from + 1)
  }

  function AreaRow(env: Env, org: string, datasource: string, a: Area): Row {
    Row(AnArea, org, datasource, "", env.nameOf(a.doc), "", a.doc)
  }

  function TableRows(env: Env, org: string, datasource: string, a: Area): seq<Row> {
    Objects(ATable, org, datasource, env.nameOf(a.doc), env.nameOf, env.schemaOf, a.tables)
  }

  function MetricRows(env: Env, org: string, datasource: string, a: Area): seq<Row> {
    Objects(AMetric, org, datasource, env.nameOf(a.doc), env.nameOf, _ => "", a.metrics)
  }

  function EntityRows(env: Env, org: string, datasource: string, a: Area): seq<Row> {
    Objects(AnEntity, org, datasource, env.nameOf(a.doc), env.nameOf, _ => "", a.entities)
  }

  function RelationshipRows(env: Env, org: string, datasource: string, a: Area): seq<Row> {
    Relationships(env, org, datasource, env.nameOf(a.doc), a.relationships, 0)
  }

  function AreaRows(env: Env, org: string, datasource: string, a: Area): seq<Row> {
    [AreaRow(env, org, datasource, a)] + TableRows(env, org, datasource, a) + MetricRows(env, org, datasource, a)
    + EntityRows(env, org, datasource, a) + RelationshipRows(env, org, datasource, a)
  }

  function AreasRows(env: Env, org: string, datasource: string, areas: seq<Area>): seq<Row> {
    if areas == [] then [] else AreaRows(env, org, datasource, areas[0]) + AreasRows(env, org, datasource, areas[1..])
  }

  function TopRow(org: string, datasource: string, doc: string): Row {
    Row(TheDatasource, org, datasource, "", "", "", doc)
  }

  function RowsOf(env: Env, org: string, datasource: string, m: Model): seq<Row> {
    [TopRow(org, datasource, m.doc)] + AreasRows(env, org, datasource, m.areas)
  }

  predicate UniqueKeys(rows: seq<Row>) {
    forall i, j :: 0 <= i < j < |rows| ==> !rows[i].SameKey(rows[j])
  }

  function Pick(rows: seq<Row>, p: Row -> bool): seq<Row> {
    if rows == [] then [] else (if p(rows[0]) then [rows[0]] else []) + Pick(rows[1..], p)
  }

  /** What the six DELETEs leave. */
  function Others(rows: seq<Row>, org: string, datasource: string): seq<Row> {
    Pick(rows, (r: Row) => !r.Of(org, datasource))
  }

  /** The tables after a write that commits. */
  function Written(env: Env, rows: seq<Row>, org: string, datasource: string, m: Model): seq<Row> {
    Others(rows, org, datasource) + RowsOf(env, org, datasource, m)
  }

  // ---------------------------------------------------------------------------
  // Rebuilding

  function Docs(rows: seq<Row>): (r: seq<string>)
    ensures |r| == |rows| && forall k :: 0 <= k < |r| ==> r[k] == rows[k].doc
  {
    if rows == [] then [] else [rows[0].doc] + Docs(rows[1..])
  }

  function Query(env: Env, rows: seq<Row>, kind: Kind, org: string, datasource: string, area: string): seq<Row> {
    Sorted(Pick(rows, (r: Row) => r.kind == kind && r.Of(org, datasource) && r.area == area), env.rowLe)
  }

  function LoadArea(env: Env, rows: seq<Row>, org: string, datasource: string, row: Row): Area {
    Area(row.doc,
         Docs(Query(env, rows, ATable, org, datasource, row.name)),
         Docs(Query(env, rows, AMetric, org, datasource, row.name)),
         Docs(Query(env, rows, AnEntity, org, datasource, row.name)),
         Docs(Query(env, rows, ARelationship, org, datasource, row.name)))
  }

  function LoadAreas(env: Env, rows: seq<Row>, org: string, datasource: string, found: seq<Row>): seq<Area> {
    if found == [] then []
    else [LoadArea(env, rows, org, datasource, found[0])] + LoadAreas(env, rows, org, datasource, found[1..])
  }

  /** `load_datasource` */
  function Load(env: Env, rows: seq<Row>, org: string, datasource: string): Option<Model> {
    var top := Query(env, rows, TheDatasource, org, datasource, "");
    if top == [] then None
    else Some(Model(top[0].doc, LoadAreas(env, rows, org, datasource, Query(env, rows, AnArea, org, datasource, ""))))
  }

  /** A model up to the order of its collections. */
  datatype AreaBag = AreaBag(doc: string, tables: multiset<string>, metrics: multiset<string>,
                             entities: multiset<string>, relationships: multiset<string>)
  datatype Bag = Bag(doc: string, areas: multiset<AreaBag>)

  function BagOfArea(a: Area): AreaBag {
    AreaBag(a.doc, multiset(a.tables), multiset(a.metrics), multiset(a.entities), multiset(a.relationships))
  }

  function BagsOf(areas: seq<Area>): multiset<AreaBag> {
    if areas == [] then multiset{} else multiset{BagOfArea(areas[0])} + BagsOf(areas[1..])
  }

  function BagOf(m: Model): Bag { Bag(m.doc, BagsOf(m.areas)) }

  /** Names unique per area, tables by schema and name; relationships need no names. */
  predicate NamesUnique(env: Env, m: Model) {
    AreaNamesDiffer(env, m.areas) && AllAreasUnique(env, m.areas)
  }

  predicate AreaNamesDiffer(env: Env, areas: seq<Area>) {
    forall i, j :: 0 <= i < j < |areas| ==> env.nameOf(areas[i].doc) != env.nameOf(areas[j].doc)
  }

  predicate NoneNamed(env: Env, areas: seq<Area>, name: string) {
    forall i :: 0 <= i < |areas| ==> env.nameOf(areas[i].doc) != name
  }

  predicate AllAreasUnique(env: Env, areas: seq<Area>) {
    forall i :: 0 <= i < |areas| ==> AreaNamesUnique(env, areas[i])
  }

  predicate DocsUnique(name: string -> string, schema: string -> string, docs: seq<string>) {
    forall i, j :: 0 <= i < j < |docs| ==> name(docs[i]) != name(docs[j]) || schema(docs[i]) != schema(docs[j])
  }

  predicate AreaNamesUnique(env: Env, a: Area) {
    && DocsUnique(env.nameOf, env.schemaOf, a.tables)
    && DocsUnique(env.nameOf, _ => "", a.metrics)
    && DocsUnique(env.nameOf, _ => "", a.entities)
  }

  // ---------------------------------------------------------------------------
  // Picking rows

  lemma PickStep(rows: seq<Row>, p: Row -> bool)
    ensures Pick(rows, p) == if rows == [] then [] else (if p(rows[0]) then [rows[0]] else []) + Pick(rows[1..], p)
  {
  }

  lemma {:induction false} PickConcat(a: seq<Row>, b: seq<Row>, p: Row -> bool)
    ensures Pick(a + b, p) == Pick(a, p) + Pick(b, p)
    decreases |a|
  {
    hide *;
    PickStep(a, p);
    if a == [] {
      assert a + b == b;
    } else {
      PickStep(a + b, p);
      PickConcat(a[1..], b, p);
      assert (a + b)[1..] == a[1..] + b;
    }
  }

  lemma {:induction false} PickAll(a: seq<Row>, p: Row -> bool)
    requires forall r :: r in a ==> p(r)
    ensures Pick(a, p) == a
    decreases |a|
  {
    if a != [] {
      PickAll(a[1..], p);
    }
  }

  lemma {:induction false} PickNone(a: seq<Row>, p: Row -> bool)
    requires forall r :: r in a ==> !p(r)
    ensures Pick(a, p) == []
    decreases |a|
  {
    if a != [] {
      PickNone(a[1..], p);
    }
  }

  lemma {:induction false} PickPick(a: seq<Row>, p: Row -> bool, q: Row -> bool)
    requires forall r :: q(r) ==> p(r)
    ensures Pick(Pick(a, p), q) == Pick(a, q)
    decreases |a|
  {
    if a != [] {
      PickPick(a[1..], p, q);
      PickConcat(if p(a[0]) then [a[0]] else [], Pick(a[1..], p), q);
      assert Pick([a[0]], q) == if q(a[0]) then [a[0]] else [] by {
        assert [a[0]][1..] == [];
      }
    }
  }

  lemma {:induction false} PickMember(a: seq<Row>, p: Row -> bool, r: Row)
    ensures r in Pick(a, p) <==> r in a && p(r)
    decreases |a|
  {
    if a != [] {
      PickMember(a[1..], p, r);
      assert a == [a[0]] + a[1..];
    }
  }

  // ---------------------------------------------------------------------------
  // Where a row of a model comes from

  lemma AreaRowShape(env: Env, org: string, datasource: string, a: Area, r: Row)
    requires r in AreaRows(env, org, datasource, a)
    ensures r.Of(org, datasource) && r.kind != TheDatasource
    ensures if r.kind == AnArea then r == AreaRow(env, org, datasource, a) else r.area == env.nameOf(a.doc)
  {
  }

  lemma {:induction false} AreasFrom(env: Env, org: string, datasource: string, areas: seq<Area>, r: Row)
    returns (i: nat)
    requires r in AreasRows(env, org, datasource, areas)
    ensures i < |areas| && r in AreaRows(env, org, datasource, areas[i])
    decreases |areas|
  {
    hide AreaRows;
    if r in AreaRows(env, org, datasource, areas[0]) {
      i := 0;
    } else {
      var k := AreasFrom(env, org, datasource, areas[1..], r);
      i := k + 1;
    }
  }

  lemma {:induction false} AreasHold(env: Env, org: string, datasource: string, areas: seq<Area>, i: nat)
    requires i < |areas|
    ensures AreaRow(env, org, datasource, areas[i]) in AreasRows(env, org, datasource, areas)
    decreases |areas|
  {
    if i == 0 {
      assert AreaRows(env, org, datasource, areas[0])[0] == AreaRow(env, org, datasource, areas[0]);
    } else {
      AreasHold(env, org, datasource, areas[1..], i - 1);
    }
  }

  lemma RowsAreOf(env: Env, org: string, datasource: string, m: Model)
    ensures forall r :: r in RowsOf(env, org, datasource, m) ==> r.Of(org, datasource)
  {
    forall r | r in RowsOf(env, org, datasource, m) ensures r.Of(org, datasource) {
      if r != TopRow(org, datasource, m.doc) {
        var i := AreasFrom(env, org, datasource, m.areas, r);
        AreaRowShape(env, org, datasource, m.areas[i], r);
      }
    }
  }

  // ---------------------------------------------------------------------------
  // Keys and names

  predicate NoSharedKey(a: seq<Row>, b: seq<Row>) {
    forall r, q :: r in a && q in b ==> !r.SameKey(q)
  }

  lemma UniqueConcat(a: seq<Row>, b: seq<Row>)
    ensures UniqueKeys(a + b) <==> UniqueKeys(a) && UniqueKeys(b) && NoSharedKey(a, b)
  {
    if UniqueKeys(a + b) {
      forall i, j | 0 <= i < j < |a| ensures !a[i].SameKey(a[j]) {
        assert (a + b)[i] == a[i] && (a + b)[j] == a[j];
      }
      forall i, j | 0 <= i < j < |b| ensures !b[i].SameKey(b[j]) {
        assert (a + b)[|a| + i] == b[i] && (a + b)[|a| + j] == b[j];
      }
      forall r, q | r in a && q in b ensures !r.SameKey(q) {
        var i :| 0 <= i < |a| && a[i] == r;
        var j :| 0 <= j < |b| && b[j] == q;
        assert (a + b)[i] == r && (a + b)[|a| + j] == q;
      }
    }
  }

  predicate AllOf(rows: seq<Row>, kind: Kind) {
    forall r :: r in rows ==> r.kind == kind
  }

  predicate NoneOf(rows: seq<Row>, kind: Kind) {
    forall r :: r in rows ==> r.kind != kind
  }

  lemma KindApart(a: seq<Row>, b: seq<Row>, kind: Kind)
    requires NoneOf(a, kind) && AllOf(b, kind)
    ensures UniqueKeys(a + b) <==> UniqueKeys(a) && UniqueKeys(b)
    ensures forall k: Kind :: k != kind && NoneOf(a, k) ==> NoneOf(a + b, k)
  {
    UniqueConcat(a, b);
  }

  lemma ObjectsUnique(kind: Kind, org: string, datasource: string, area: string, name: string -> string,
                      schema: string -> string, docs: seq<string>)
    ensures UniqueKeys(Objects(kind, org, datasource, area, name, schema, docs)) <==> DocsUnique(name, schema, docs)
  {
    var r := Objects(kind, org, datasource, area, name, schema, docs);
    forall i, j | 0 <= i < j < |docs|
      ensures r[i].SameKey(r[j]) <==> name(docs[i]) == name(docs[j]) && schema(docs[i]) == schema(docs[j])
    {
    }
  }

  lemma RelationshipsUnique(env: Env, org: string, datasource: string, a: Area)
    ensures UniqueKeys(RelationshipRows(env, org, datasource, a))
  {
    var r := RelationshipRows(env, org, datasource, a);
    forall i, j | 0 <= i < j < |r| ensures !r[i].SameKey(r[j]) {
      KeysDiffer(env, i, a.relationships[i], j, a.relationships[j]);
    }
  }

  lemma AreaUnique(env: Env, org: string, datasource: string, a: Area)
    ensures UniqueKeys(AreaRows(env, org, datasource, a)) <==> AreaNamesUnique(env, a)
  {
    ObjectsUnique(ATable, org, datasource, env.nameOf(a.doc), env.nameOf, env.schemaOf, a.tables);
    ObjectsUnique(AMetric, org, datasource, env.nameOf(a.doc), env.nameOf, _ => "", a.metrics);
    ObjectsUnique(AnEntity, org, datasource, env.nameOf(a.doc), env.nameOf, _ => "", a.entities);
    RelationshipsUnique(env, org, datasource, a);
    BlocksUnique([AreaRow(env, org, datasource, a)], TableRows(env, org, datasource, a),
                 MetricRows(env, org, datasource, a), EntityRows(env, org, datasource, a),
                 RelationshipRows(env, org, datasource, a));
  }

  lemma BlocksUnique(top: seq<Row>, tables: seq<Row>, metrics: seq<Row>, entities: seq<Row>, relationships: seq<Row>)
    requires |top| == 1 && top[0].kind == AnArea && AllOf(tables, ATable) && AllOf(metrics, AMetric)
    requires AllOf(entities, AnEntity) && AllOf(relationships, ARelationship)
    ensures UniqueKeys(top + tables + metrics + entities + relationships) <==>
            UniqueKeys(tables) && UniqueKeys(metrics) && UniqueKeys(entities) && UniqueKeys(relationships)
  {
    assert UniqueKeys(top) && NoneOf(top, ATable) && NoneOf(top, AMetric) && NoneOf(top, AnEntity)
           && NoneOf(top, ARelationship);
    hide UniqueKeys, NoneOf, AllOf;
    KindApart(top, tables, ATable);
    KindApart(top + tables, metrics, AMetric);
    KindApart(top + tables + metrics, entities, AnEntity);
    KindApart(top + tables + metrics + entities, relationships, ARelationship);
  }

  /** Rows of areas with different names share no key; areas with the same name share one. */
  lemma AreasApart(env: Env, org: string, datasource: string, a: Area, rest: seq<Area>)
    ensures NoSharedKey(AreaRows(env, org, datasource, a), AreasRows(env, org, datasource, rest)) <==>
            NoneNamed(env, rest, env.nameOf(a.doc))
  {
    var here, there := AreaRows(env, org, datasource, a), AreasRows(env, org, datasource, rest);
    forall i | 0 <= i < |rest| ensures NoSharedKey(here, there) ==> env.nameOf(rest[i].doc) != env.nameOf(a.doc) {
      AreasHold(env, org, datasource, rest, i);
      assert here[0] == AreaRow(env, org, datasource, a);
      assert here[0] in here;
      assert NoSharedKey(here, there) ==> !here[0].SameKey(AreaRow(env, org, datasource, rest[i]));
    }
    if NoneNamed(env, rest, env.nameOf(a.doc)) {
      forall r, q | r in here && q in there ensures !r.SameKey(q) {
        var i := AreasFrom(env, org, datasource, rest, q);
        AreaRowShape(env, org, datasource, a, r);
        AreaRowShape(env, org, datasource, rest[i], q);
      }
    }
  }

  lemma {:induction false} AreasUnique(env: Env, org: string, datasource: string, areas: seq<Area>)
    ensures UniqueKeys(AreasRows(env, org, datasource, areas)) <==>
            AreaNamesDiffer(env, areas) && AllAreasUnique(env, areas)
    decreases |areas|
  {
    if areas != [] {
      hide AreaNamesUnique, AreaRows, UniqueKeys, NoSharedKey, AreaNamesDiffer, AllAreasUnique, NoneNamed;
      AreasUnique(env, org, datasource, areas[1..]);
      AreaUnique(env, org, datasource, areas[0]);
      UniqueConcat(AreaRows(env, org, datasource, areas[0]), AreasRows(env, org, datasource, areas[1..]));
      AreasApart(env, org, datasource, areas[0], areas[1..]);
    }
  }

  /** **The rows of a model have distinct keys exactly when its names are unique per area**: tables by
      name and schema, and relationships whatever they are. */
  lemma KeysUniqueIffNames(env: Env, org: string, datasource: string, m: Model)
    ensures UniqueKeys(RowsOf(env, org, datasource, m)) <==> NamesUnique(env, m)
  {
    AreasUnique(env, org, datasource, m.areas);
    var top, rest := [TopRow(org, datasource, m.doc)], AreasRows(env, org, datasource, m.areas);
    UniqueConcat(top, rest);
    forall r, q | r in top && q in rest ensures !r.SameKey(q) {
      var i := AreasFrom(env, org, datasource, m.areas, q);
      AreaRowShape(env, org, datasource, m.areas[i], q);
    }
  }
}
