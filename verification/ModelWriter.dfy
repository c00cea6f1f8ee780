/** The writer as the deploy runs it: deletes, then inserts one by one, then one commit. */
module ModelWriter {
  import opened Common
  import opened Sorting
  import opened ModelStore
  import opened ModelRoundTrip

  const MODEL_TABLES: seq<Kind> := [ARelationship, AnEntity, AMetric, ATable, AnArea, TheDatasource]

  /** Rows of the given tables are gone for one datasource. */
  function Cleared(rows: seq<Row>, kinds: seq<Kind>, org: string, datasource: string): seq<Row> {
    Pick(rows, (r: Row) => !(r.kind in kinds && r.Of(org, datasource)))
  }

  lemma {:induction false} SamePick(rows: seq<Row>, p: Row -> bool, q: Row -> bool)
    requires forall r :: p(r) <==> q(r)
    ensures Pick(rows, p) == Pick(rows, q)
    decreases |rows|
  {
    if rows != [] {
      SamePick(rows[1..], p, q);
    }
  }

  lemma {:induction false} PickBoth(rows: seq<Row>, p: Row -> bool, q: Row -> bool, both: Row -> bool)
    requires forall r :: both(r) <==> p(r) && q(r)
    ensures Pick(Pick(rows, p), q) == Pick(rows, both)
    decreases |rows|
  {
    if rows != [] {
      PickBoth(rows[1..], p, q, both);
      PickConcat(if p(rows[0]) then [rows[0]] else [], Pick(rows[1..], p), q);
      assert [rows[0]][1..] == [];
    }
  }

  lemma ClearedMore(rows: seq<Row>, kinds: seq<Kind>, kind: Kind, org: string, datasource: string)
    ensures Pick(Cleared(rows, kinds, org, datasource), (r: Row) => !(r.kind == kind && r.Of(org, datasource))) ==
            Cleared(rows, kinds + [kind], org, datasource)
  {
    PickBoth(rows, (r: Row) => !(r.kind in kinds && r.Of(org, datasource)),
             (r: Row) => !(r.kind == kind && r.Of(org, datasource)),
             (r: Row) => !(r.kind in kinds + [kind] && r.Of(org, datasource)));
  }

  lemma EveryKind(kind: Kind)
    ensures kind in MODEL_TABLES
  {
    assert MODEL_TABLES[0] == ARelationship && MODEL_TABLES[1] == AnEntity && MODEL_TABLES[2] == AMetric;
    assert MODEL_TABLES[3] == ATable && MODEL_TABLES[4] == AnArea && MODEL_TABLES[5] == TheDatasource;
  }

  lemma ClearedAll(rows: seq<Row>, org: string, datasource: string)
    ensures Cleared(rows, MODEL_TABLES, org, datasource) == Others(rows, org, datasource)
    ensures Cleared(rows, [], org, datasource) == rows
  {
    forall k: Kind ensures k in MODEL_TABLES { EveryKind(k); }
    SamePick(rows, (r: Row) => !(r.kind in MODEL_TABLES && r.Of(org, datasource)), (r: Row) => !r.Of(org, datasource));
    PickAll(rows, (r: Row) => !(r.kind in [] && r.Of(org, datasource)));
  }

  lemma {:induction false} PickUnique(rows: seq<Row>, p: Row -> bool)
    requires UniqueKeys(rows)
    ensures UniqueKeys(Pick(rows, p))
    decreases |rows|
  {
    if rows != [] {
      PickUnique(rows[1..], p);
      UniqueConcat(if p(rows[0]) then [rows[0]] else [], Pick(rows[1..], p));
      forall q | q in Pick(rows[1..], p) ensures !rows[0].SameKey(q) {
        PickMember(rows[1..], p, q);
      }
    }
  }

  /** What was kept never collides with what is written. */
  lemma WrittenUnique(env: Env, rows: seq<Row>, org: string, datasource: string, m: Model)
    requires UniqueKeys(rows)
    ensures UniqueKeys(Written(env, rows, org, datasource, m)) <==> NamesUnique(env, m)
    ensures UniqueKeys(Others(rows, org, datasource))
  {
    var p := (r: Row) => !r.Of(org, datasource);
    PickUnique(rows, p);
    UniqueConcat(Others(rows, org, datasource), RowsOf(env, org, datasource, m));
    KeysUniqueIffNames(env, org, datasource, m);
    RowsAreOf(env, org, datasource, m);
    forall r, q | r in Others(rows, org, datasource) && q in RowsOf(env, org, datasource, m) ensures !r.SameKey(q) {
      PickMember(rows, p, r);
    }
  }

  lemma UniquePrefix(a: seq<Row>, b: seq<Row>)
    requires a <= b && UniqueKeys(b)
    ensures UniqueKeys(a)
  {
    assert b == a + b[|a|..];
    UniqueConcat(a, b[|a|..]);
  }

  lemma {:induction false} AreasSnoc(env: Env, org: string, datasource: string, areas: seq<Area>, i: nat)
    requires i < |areas|
    ensures AreasRows(env, org, datasource, areas[..i + 1]) ==
            AreasRows(env, org, datasource, areas[..i]) + AreaRows(env, org, datasource, areas[i])
    ensures AreasRows(env, org, datasource, areas[..i + 1]) <= AreasRows(env, org, datasource, areas)
    decreases i
  {
    hide AreaRows;
    if i == 0 {
      assert areas[..1][1..] == [];
    } else {
      AreasSnoc(env, org, datasource, areas[1..], i - 1);
      assert areas[..i + 1][1..] == areas[1..][..i] && areas[..i][1..] == areas[1..][..i - 1];
    }
  }

  class ModelTables {
    var rows: seq<Row>

    constructor ()
      ensures Valid() && rows == []
    {
      rows := [];
    }

    /** The primary keys. */
    ghost predicate Valid()
      reads this
    {
      UniqueKeys(rows)
    }

    method Delete(kind: Kind, org: string, datasource: string)
      modifies `rows
      ensures rows == Pick(old(rows), (r: Row) => !(r.kind == kind && r.Of(org, datasource)))
    {
      rows := Pick(rows, (r: Row) => !(r.kind == kind && r.Of(org, datasource)));
    }

    /** Refused when the key exists. */
    method Insert(row: Row) returns (ok: bool)
      requires Valid()
      modifies `rows
      ensures Valid()
      ensures ok <==> UniqueKeys(old(rows) + [row])
      ensures rows == if ok then old(rows) + [row] else old(rows)
    {
      UniqueConcat(rows, [row]);
      assert NoSharedKey(rows, [row]) <==> forall k :: 0 <= k < |rows| ==> !rows[k].SameKey(row);
      ok := forall k :: 0 <= k < |rows| ==> !rows[k].SameKey(row);
      if ok {
        rows := rows + [row];
      }
    }

    /** One INSERT per object of a collection, up to the first that is refused. */
    method InsertEach(block: seq<Row>) returns (ok: bool)
      requires Valid()
      modifies `rows
      ensures Valid()
      ensures ok <==> UniqueKeys(old(rows) + block)
      ensures ok ==> rows == old(rows) + block
    {
      var i := 0;
      while i < |block|
        invariant 0 <= i <= |block|
        invariant Valid() && rows == old(rows) + block[..i]
      {
        ok := Insert(block[i]);
        assert old(rows) + block[..i + 1] == old(rows) + block[..i] + [block[i]];
        if !ok {
          if UniqueKeys(old(rows) + block) {
            UniquePrefix(old(rows) + block[..i + 1], old(rows) + block);
          }
          return;
        }
        i := i + 1;
      }
      assert block[..|block|] == block;
      ok := true;
    }

    method InsertArea(env: Env, org: string, datasource: string, a: Area) returns (ok: bool)
      requires Valid()
      modifies `rows
      ensures Valid()
      ensures ok <==> UniqueKeys(old(rows) + AreaRows(env, org, datasource, a))
      ensures ok ==> rows == old(rows) + AreaRows(env, org, datasource, a)
    {
      hide UniqueKeys, TableRows, MetricRows, EntityRows, RelationshipRows, AreaRow;
      ghost var all := old(rows) + AreaRows(env, org, datasource, a);
      ghost var next := rows + [AreaRow(env, org, datasource, a)];
      ok := InsertEach([AreaRow(env, org, datasource, a)]);
      if ok {
        next := rows + TableRows(env, org, datasource, a);
        ok := InsertEach(TableRows(env, org, datasource, a));
      }
      if ok {
        next := rows + MetricRows(env, org, datasource, a);
        ok := InsertEach(MetricRows(env, org, datasource, a));
      }
      if ok {
        next := rows + EntityRows(env, org, datasource, a);
        ok := InsertEach(EntityRows(env, org, datasource, a));
      }
      if ok {
        next := rows + RelationshipRows(env, org, datasource, a);
        ok := InsertEach(RelationshipRows(env, org, datasource, a));
      }
      assert next <= all;
      if ok {
        assert rows == all;
      } else {
        Blocked(next, all);
      }
    }

    /** **`write_datasource`**: it goes through exactly when the model's names are unique per area, and
        otherwise nothing is committed. */
    method WriteDatasource(env: Env, org: string, datasource: string, m: Model) returns (ok: bool)
      requires Valid()
      modifies `rows
      ensures Valid()
      ensures ok <==> NamesUnique(env, m)
      ensures rows == if ok then Written(env, old(rows), org, datasource, m) else old(rows)
    {
      hide Pick, Cleared, Others, RowsOf, UniqueKeys, NamesUnique;
      var saved := rows;
      ClearedAll(saved, org, datasource);
      WrittenUnique(env, saved, org, datasource, m);
      var t := 0;
      while t < |MODEL_TABLES|
        invariant 0 <= t <= |MODEL_TABLES|
        invariant rows == Cleared(saved, MODEL_TABLES[..t], org, datasource)
      {
        ClearedMore(saved, MODEL_TABLES[..t], MODEL_TABLES[t], org, datasource);
        assert MODEL_TABLES[..t + 1] == MODEL_TABLES[..t] + [MODEL_TABLES[t]];
        Delete(MODEL_TABLES[t], org, datasource);
        t := t + 1;
      }
      assert MODEL_TABLES[..|MODEL_TABLES|] == MODEL_TABLES;
      ok := InsertModel(env, org, datasource, m);
      if !ok {
        rows := saved;
      }
    }

    method InsertModel(env: Env, org: string, datasource: string, m: Model) returns (ok: bool)
      requires Valid()
      modifies `rows
      ensures ok <==> UniqueKeys(old(rows) + RowsOf(env, org, datasource, m))
      ensures ok ==> rows == old(rows) + RowsOf(env, org, datasource, m)
    {
      hide UniqueKeys, AreaRows;
      ghost var goal := old(rows) + RowsOf(env, org, datasource, m);
      ghost var top := [TopRow(org, datasource, m.doc)];
      ok := InsertEach([TopRow(org, datasource, m.doc)]);
      if !ok {
        Blocked(old(rows) + top, goal);
        return;
      }
      assert m.areas[..0] == [];
      var i := 0;
      while i < |m.areas|
        invariant 0 <= i <= |m.areas|
        invariant Valid()
        invariant rows == old(rows) + top + AreasRows(env, org, datasource, m.areas[..i])
      {
        AreasSnoc(env, org, datasource, m.areas, i);
        ghost var next := rows + AreaRows(env, org, datasource, m.areas[i]);
        assert next == old(rows) + top + AreasRows(env, org, datasource, m.areas[..i + 1]);
        ok := InsertArea(env, org, datasource, m.areas[i]);
        if !ok {
          Blocked(next, goal);
          return;
        }
        i := i + 1;
      }
      assert m.areas[..|m.areas|] == m.areas;
      assert rows == goal;
      ok := true;
    }
  }

  lemma Blocked(a: seq<Row>, b: seq<Row>)
    requires a <= b && !UniqueKeys(a)
    ensures !UniqueKeys(b)
  {
    if UniqueKeys(b) {
      UniquePrefix(a, b);
    }
  }
}
