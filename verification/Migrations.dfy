/** Schema migrations: tracking ids, one run's plan, and the run itself. */
module Migrations {
  import opened Common
  import opened IsoStamp
  import opened Sorting

  /** A migration root: its namespace, empty for core, and the names of its `*.sql` files. */
  datatype Root = Root(name: string, files: seq<string>)

  function TrackingId(name: string, file: string): string {
    if name == "" then file else name + ":" + file
  }

  // ---------------------------------------------------------------------------
  // Tracking ids

  /** The name of root `m` continues that of root `n` after a colon, and `f` makes up for the rest: the
      file `g` of `m` gets the id of the file `f` of `n`. For core, whose ids are bare, any `m` does. */
  predicate Shadows(n: string, f: string, m: string, g: string) {
    if n == "" then m != "" && f == m + ":" + g
    else |n| < |m| && m[..|n|] == n && m[|n|] == ':' && f == m[|n| + 1..] + ":" + g
  }

  /** Of two overlay names the shorter is a prefix of any id they share. */
  lemma OverlayIdsShared(n: string, f: string, m: string, g: string)
    requires n != "" && |n| <= |m|
    ensures TrackingId(n, f) == TrackingId(m, g) <==> (n == m && f == g) || Shadows(n, f, m, g)
  {
    var id, id' := TrackingId(n, f), TrackingId(m, g);
    assert id[..|n|] == n && id[|n|] == ':' && id[|n| + 1..] == f;
    assert id'[..|m|] == m && id'[|m|] == ':' && id'[|m| + 1..] == g;
    if |n| == |m| {
      assert id == id' ==> n == m && f == g;
    } else {
      assert id'[..|n|] == m[..|n|] && id'[|n|] == m[|n|];
      assert id'[|n| + 1..] == m[|n| + 1..] + ":" + g;
      assert id == n + ":" + f && id' == m[..|n|] + [m[|n|]] + (m[|n| + 1..] + ":" + g);
    }
  }

  lemma CoreIdsShared(f: string, m: string, g: string)
    ensures TrackingId("", f) == TrackingId(m, g) <==> (m == "" && f == g) || Shadows("", f, m, g)
  {
  }

  /** **Two files share a tracking id exactly when they are one file or one shadows the other.** */
  lemma IdsMeetIff(n: string, f: string, m: string, g: string)
    ensures TrackingId(n, f) == TrackingId(m, g) <==>
            (n == m && f == g) || Shadows(n, f, m, g) || Shadows(m, g, n, f)
  {
    hide TrackingId;
    if n == "" {
      CoreIdsShared(f, m, g);
    } else if m == "" {
      CoreIdsShared(g, n, f);
    } else if |n| <= |m| {
      OverlayIdsShared(n, f, m, g);
    } else {
      OverlayIdsShared(m, g, n, f);
    }
  }

  function FirstColon(id: string): (n: nat)
    ensures n <= |id| && (n < |id| ==> id[n] == ':') && forall k :: 0 <= k < n ==> id[k] != ':'
  {
    if id == [] || id[0] == ':' then 0 else 1 + FirstColon(id[1..])
  }

  /** The root name and file name an id is read as. */
  function Reading(id: string): (string, string) {
    var n := FirstColon(id);
    if n == |id| then ("", id) else (id[..n], id[n + 1..])
  }

  /** **A tracking id reads back as its root and file exactly when** neither the overlay name, nor the
      file name of core, holds a colon. */
  lemma ReadsBackIff(n: string, f: string)
    ensures Reading(TrackingId(n, f)) == (n, f) <==> if n == "" then ':' !in f else ':' !in n
  {
    var id := TrackingId(n, f);
    if n == "" {
      assert FirstColon(id) == |id| <==> ':' !in f;
    } else {
      assert id[|n|] == ':' && forall k :: 0 <= k < |n| ==> id[k] == n[k];
      if ':' !in n {
        assert FirstColon(id) == |n|;
        assert id[..|n|] == n && id[|n| + 1..] == f;
      } else {
        assert FirstColon(id) < |n|;
      }
    }
  }

  /** So a shared id needs a colon in the name of an overlay, or in the name of a core file. */
  lemma SharedNeedsColon(n: string, f: string, m: string, g: string)
    requires TrackingId(n, f) == TrackingId(m, g) && (n != m || f != g)
    ensures ':' in n || ':' in m || (n == "" && ':' in f) || (m == "" && ':' in g)
  {
    IdsMeetIff(n, f, m, g);
    if Shadows(n, f, m, g) {
      assert n == "" ==> f[|m|] == ':';
    } else {
      assert m == "" ==> g[|n|] == ':';
    }
  }

  // ---------------------------------------------------------------------------
  // The plan of a run

  function InOrder(files: seq<string>): seq<string> {
    Sorted(files, (a, b) => TextLe(a, b))
  }

  /** The files of a root run in the order of their names. */
  lemma FilesInOrder(files: seq<string>)
    ensures multiset(InOrder(files)) == multiset(files)
    ensures forall i, j :: 0 <= i < j < |files| ==> TextLe(InOrder(files)[i], InOrder(files)[j])
  {
    var le := (a, b) => TextLe(a, b);
    forall a, b ensures le(a, b) || le(b, a) { TextTotal(a, b); }
    forall a, b, c | le(a, b) && le(b, c) ensures le(a, c) { TextTransitive(a, b, c); }
    SortedHolds(files, le);
    SortedOrdered(files, le);
  }

  function IdsOf(name: string, files: seq<string>): (r: seq<string>)
    ensures |r| == |files| && forall i :: 0 <= i < |r| ==> r[i] == TrackingId(name, files[i])
  {
    if files == [] then [] else [TrackingId(name, files[0])] + IdsOf(name, files[1..])
  }

  /** Every id, root by root and within a root by file name. */
  function Plan(roots: seq<Root>): seq<string> {
    if roots == [] then [] else IdsOf(roots[0].name, InOrder(roots[0].files)) + Plan(roots[1..])
  }

  /** What the run checks of its overlays before anything else. */
  predicate OverlaysOk(overlays: seq<Root>) {
    (forall i :: 0 <= i < |overlays| ==> overlays[i].name != "")
    && (forall i, j :: 0 <= i < j < |overlays| ==> overlays[i].name != overlays[j].name)
  }

  /** What a run's roots are: distinct names, and no file listed twice. */
  predicate RootsOk(roots: seq<Root>) {
    && (forall i :: 0 <= i < |roots| ==> Unique(roots[i].files))
    && (forall i, j :: 0 <= i < j < |roots| ==> roots[i].name != roots[j].name)
  }

  /** A file of one root shadows, or is shadowed by, a file of another. */
  predicate Clash(r: Root, q: Root) {
    exists f, g :: f in r.files && g in q.files && (Shadows(r.name, f, q.name, g) || Shadows(q.name, g, r.name, f))
  }

  lemma {:induction false} PlanFrom(roots: seq<Root>, id: string) returns (i: nat, k: nat)
    requires id in Plan(roots)
    ensures i < |roots| && k < |roots[i].files| && id == TrackingId(roots[i].name, roots[i].files[k])
    decreases |roots|
  {
    var files := InOrder(roots[0].files);
    var here := IdsOf(roots[0].name, files);
    if id in here {
      var j :| 0 <= j < |here| && here[j] == id;
      FilesInOrder(roots[0].files);
      assert files[j] in multiset(files);
      i := 0;
      k :| 0 <= k < |roots[0].files| && roots[0].files[k] == files[j];
    } else {
      var i', k' := PlanFrom(roots[1..], id);
      i, k := i' + 1, k';
    }
  }

  lemma UniqueSorted(files: seq<string>)
    requires Unique(files)
    ensures Unique(InOrder(files))
  {
    var r := InOrder(files);
    FilesInOrder(files);
    forall i, j | 0 <= i < j < |r| ensures r[i] != r[j] {
      Occurrences(r, i, j);
      OccursOnce(files, r[i]);
    }
  }

  lemma Occurrences<T>(s: seq<T>, i: nat, j: nat)
    requires i < j < |s|
    ensures s[i] == s[j] ==> multiset(s)[s[i]] >= 2
  {
    assert s == s[..j] + s[j..];
    assert multiset(s) == multiset(s[..j]) + multiset(s[j..]);
    assert s[..j][i] == s[i] && s[j..][0] == s[j];
  }

  lemma {:induction false} OccursOnce<T>(s: seq<T>, x: T)
    requires Unique(s)
    ensures multiset(s)[x] <= 1
    decreases |s|
  {
    if s != [] {
      assert s == [s[0]] + s[1..];
      OccursOnce(s[1..], x);
      assert s[0] !in s[1..];
    }
  }

  lemma InOrderHolds(files: seq<string>, f: string)
    ensures f in InOrder(files) <==> f in files
  {
    FilesInOrder(files);
    assert multiset(InOrder(files))[f] == multiset(files)[f];
  }

  lemma OwnIdsDiffer(name: string, files: seq<string>)
    requires Unique(files)
    ensures Unique(IdsOf(name, InOrder(files)))
  {
    UniqueSorted(files);
    var r := InOrder(files);
    forall i, j | 0 <= i < j < |r|
      ensures TrackingId(name, r[i]) != TrackingId(name, r[j])
    {
      IdsMeetIff(name, r[i], name, r[j]);
    }
  }

  lemma IdsOfHold(name: string, files: seq<string>, f: string)
    requires f in files
    ensures TrackingId(name, f) in IdsOf(name, InOrder(files))
  {
    InOrderHolds(files, f);
    var k :| 0 <= k < |InOrder(files)| && InOrder(files)[k] == f;
    assert IdsOf(name, InOrder(files))[k] == TrackingId(name, f);
  }

  lemma {:induction false} PlanHolds(roots: seq<Root>, i: nat, f: string)
    requires i < |roots| && f in roots[i].files
    ensures TrackingId(roots[i].name, f) in Plan(roots)
    decreases |roots|
  {
    hide TrackingId, InOrder, IdsOf;
    if i == 0 {
      IdsOfHold(roots[0].name, roots[0].files, f);
    } else {
      PlanHolds(roots[1..], i - 1, f);
    }
  }

  predicate ClashesWithSome(r: Root, others: seq<Root>) {
    exists j :: 0 <= j < |others| && Clash(r, others[j])
  }

  /** The ids of one root are apart from those of the others exactly when it clashes with none. */
  lemma ApartIff(r: Root, others: seq<Root>)
    requires forall j :: 0 <= j < |others| ==> others[j].name != r.name
    ensures (exists id :: id in IdsOf(r.name, InOrder(r.files)) && id in Plan(others)) <==> ClashesWithSome(r, others)
  {
    hide TrackingId, Shadows, InOrder;
    if id :| id in IdsOf(r.name, InOrder(r.files)) && id in Plan(others) {
      var j, k := PlanFrom(others, id);
      var h :| 0 <= h < |InOrder(r.files)| && IdsOf(r.name, InOrder(r.files))[h] == id;
      var f, g := InOrder(r.files)[h], others[j].files[k];
      InOrderHolds(r.files, f);
      IdsMeetIff(r.name, f, others[j].name, g);
      assert Clash(r, others[j]);
    }
    if j :| 0 <= j < |others| && Clash(r, others[j]) {
      var f, g :| f in r.files && g in others[j].files
                  && (Shadows(r.name, f, others[j].name, g) || Shadows(others[j].name, g, r.name, f));
      IdsMeetIff(r.name, f, others[j].name, g);
      IdsOfHold(r.name, r.files, f);
      PlanHolds(others, j, g);
    }
  }

  lemma UniqueSplit(a: seq<string>, b: seq<string>)
    ensures Unique(a + b) <==> Unique(a) && Unique(b) && !exists id :: id in a && id in b
  {
    var s := a + b;
    if Unique(s) {
      forall i, j | 0 <= i < j < |a| ensures a[i] != a[j] {
        assert s[i] == a[i] && s[j] == a[j];
      }
      forall i, j | 0 <= i < j < |b| ensures b[i] != b[j] {
        assert s[|a| + i] == b[i] && s[|a| + j] == b[j];
      }
      forall i, j | 0 <= i < |a| && 0 <= j < |b| ensures a[i] != b[j] {
        assert s[i] == a[i] && s[|a| + j] == b[j];
      }
    }
    forall i, j | 0 <= i < j < |s| && Unique(a) && Unique(b) && !exists id :: id in a && id in b
      ensures s[i] != s[j]
    {
      assert i < |a| <= j ==> s[i] in a && s[j] in b;
    }
  }

  predicate NoClashes(roots: seq<Root>) {
    forall i, j :: 0 <= i < j < |roots| ==> !Clash(roots[i], roots[j])
  }

  lemma NoClashesStep(roots: seq<Root>)
    requires roots != []
    ensures NoClashes(roots) <==> NoClashes(roots[1..]) && !ClashesWithSome(roots[0], roots[1..])
  {
    hide Clash;
    var rest := roots[1..];
    if NoClashes(roots) {
      forall i, j | 0 <= i < j < |rest| ensures !Clash(rest[i], rest[j]) {
        assert rest[i] == roots[i + 1] && rest[j] == roots[j + 1];
      }
      forall j | 0 <= j < |rest| ensures !Clash(roots[0], rest[j]) {
        assert rest[j] == roots[j + 1];
      }
    }
    if NoClashes(rest) && !ClashesWithSome(roots[0], rest) {
      forall i, j | 0 <= i < j < |roots| ensures !Clash(roots[i], roots[j]) {
        assert roots[j] == rest[j - 1];
      }
    }
  }

  lemma RootsOkStep(roots: seq<Root>)
    requires roots != [] && RootsOk(roots)
    ensures RootsOk(roots[1..]) && Unique(roots[0].files)
    ensures forall j :: 0 <= j < |roots[1..]| ==> roots[1..][j].name != roots[0].name
  {
  }

  /** **A plan holds no id twice exactly when no two of its roots clash.** */
  lemma {:induction false} PlanUniqueIff(roots: seq<Root>)
    requires RootsOk(roots)
    ensures Unique(Plan(roots)) <==> NoClashes(roots)
    decreases |roots|
  {
    hide RootsOk, NoClashes, ClashesWithSome, IdsOf, InOrder;
    if roots != [] {
      RootsOkStep(roots);
      PlanUniqueIff(roots[1..]);
      NoClashesStep(roots);
      ApartIff(roots[0], roots[1..]);
      OwnIdsDiffer(roots[0].name, roots[0].files);
      UniqueSplit(IdsOf(roots[0].name, InOrder(roots[0].files)), Plan(roots[1..]));
    } else {
      NoRoots();
    }
  }

  lemma NoRoots()
    ensures NoClashes([])
  {
  }

  // ---------------------------------------------------------------------------
  // One run

  /** The ids of `plan` that are not in `applied`, in order. */
  function Missing(plan: seq<string>, applied: set<string>): seq<string> {
    if plan == [] then []
    else (if plan[0] in applied then [] else [plan[0]]) + Missing(plan[1..], applied)
  }

  lemma MissingStep(plan: seq<string>, applied: set<string>)
    ensures Missing(plan, applied) ==
            if plan == [] then []
            else (if plan[0] in applied then [] else [plan[0]]) + Missing(plan[1..], applied)
  {
  }

  lemma {:induction false} MissingConcat(a: seq<string>, b: seq<string>, applied: set<string>)
    ensures Missing(a + b, applied) == Missing(a, applied) + Missing(b, applied)
    decreases |a|
  {
    hide *;
    MissingStep(a, applied);
    if a == [] {
      assert a + b == b;
    } else {
      MissingStep(a + b, applied);
      MissingConcat(a[1..], b, applied);
      assert (a + b)[1..] == a[1..] + b;
    }
  }

  lemma MissingSnoc(plan: seq<string>, id: string, applied: set<string>)
    ensures Missing(plan + [id], applied) == Missing(plan, applied) + (if id in applied then [] else [id])
  {
    hide *;
    MissingConcat(plan, [id], applied);
    MissingStep([id], applied);
    MissingStep([id][1..], applied);
  }

  /** `Missing` is exactly the ids of the plan that were not applied. */
  lemma {:induction false} MissingExact(plan: seq<string>, applied: set<string>, id: string)
    ensures id in Missing(plan, applied) <==> id in plan && id !in applied
    decreases |plan|
  {
    if plan != [] {
      MissingExact(plan[1..], applied, id);
      assert plan == [plan[0]] + plan[1..];
    }
  }

  /** A rerun over what is applied has nothing to do. */
  lemma NothingMissing(plan: seq<string>, applied: set<string>)
    requires forall id :: id in plan ==> id in applied
    ensures Missing(plan, applied) == []
  {
    if Missing(plan, applied) != [] {
      MissingExact(plan, applied, Missing(plan, applied)[0]);
    }
  }

  datatype Outcome = BadOverlays | Ran(ids: seq<string>) | Failed

  function Ids(s: seq<string>): set<string> { set id | id in s }

  /** The database as one migrating session sees it: the tracking table, and the scripts that have
      run in committed transactions. */
  class Database {
    var tracked: set<string>
    var log: seq<string>

    constructor ()
      ensures tracked == {} && log == []
    {
      tracked, log := {}, [];
    }

    /** The script and its tracking row, in one transaction: neither is kept when the script fails or
        the id is already a key. */
    method Apply(mid: string, scriptFails: bool) returns (ok: bool)
      modifies this
      ensures ok <==> !scriptFails && mid !in old(tracked)
      ensures log == if ok then old(log) + [mid] else old(log)
      ensures tracked == if ok then old(tracked) + {mid} else old(tracked)
    {
      if scriptFails || mid in tracked {
        return false;
      }
      log, tracked := log + [mid], tracked + {mid};
      ok := true;
    }

    /** The files of one root. On failure `ran` says how far it came. */
    method ApplyRoot(name: string, files: seq<string>, applied: set<string>, fails: string -> bool)
      returns (ok: bool, ran: seq<string>)
      modifies this
      ensures var missing := Missing(IdsOf(name, files), applied);
              && (ok ==> ran == missing)
              && (!ok ==> ran < missing && (fails(missing[|ran|]) || missing[|ran|] in tracked))
      ensures log == old(log) + ran && tracked == old(tracked) + Ids(ran)
    {
      hide Missing, Ids, TrackingId, IdsOf;
      NothingYet(applied);
      ran := [];
      ghost var ids := IdsOf(name, files);
      var j := 0;
      while j < |files|
        invariant 0 <= j <= |files|
        invariant ran == Missing(ids[..j], applied)
        invariant log == old(log) + ran && tracked == old(tracked) + Ids(ran)
      {
        var mid := TrackingId(name, files[j]);
        MissingSnoc(ids[..j], mid, applied);
        MissingPrefix(ids[..j + 1], ids, applied);
        assert ids[..j] + [mid] == ids[..j + 1];
        if mid !in applied {
          ok := Apply(mid, fails(mid));
          if !ok {
            return;
          }
          IdsConcat(ran, [mid]);
          ran := ran + [mid];
        }
        j := j + 1;
      }
      assert ids[..|files|] == ids;
      ok := true;
    }

    /** `run_migrations` on one instance; `done` is what it committed. */
    method RunMigrations(core: seq<string>, overlays: seq<Root>, fails: string -> bool)
      returns (r: Outcome, ghost done: seq<string>)
      modifies this
      ensures r == BadOverlays <==>
                || (exists i :: 0 <= i < |overlays| && overlays[i].name == "")
                || (exists i, j :: 0 <= i < j < |overlays| && overlays[i].name == overlays[j].name)
      ensures r == BadOverlays ==> done == []
      ensures var missing := Missing(Plan([Root("", core)] + overlays), old(tracked));
              && (r.Ran? ==> done == r.ids == missing)
              && (r.Failed? ==> done < missing && (fails(missing[|done|]) || missing[|done|] in tracked))
      ensures log == old(log) + done && tracked == old(tracked) + Ids(done)
    {
      hide Missing, Ids, Plan, IdsOf, InOrder;
      NothingYet(tracked);
      done := [];
      if !OverlaysOk(overlays) {
        return BadOverlays, [];
      }
      var roots := [Root("", core)] + overlays;
      assert roots[..0] == [];
      var applied := tracked;
      var ran: seq<string> := [];
      var i := 0;
      while i < |roots|
        invariant 0 <= i <= |roots|
        invariant ran == Missing(Plan(roots[..i]), applied)
        invariant log == old(log) + ran && tracked == old(tracked) + Ids(ran)
      {
        var files := InOrder(roots[i].files);
        PlanSplit(roots, i);
        MissingConcat(Plan(roots[..i]), IdsOf(roots[i].name, files), applied);
        MissingPrefix(Plan(roots[..i + 1]), Plan(roots), applied);
        var ok, more := ApplyRoot(roots[i].name, files, applied, fails);
        IdsConcat(ran, more);
        ran := ran + more;
        if !ok {
          return Failed, ran;
        }
        i := i + 1;
      }
      assert roots[..|roots|] == roots;
      r, done := Ran(ran), ran;
    }
  }

  lemma NothingYet(applied: set<string>)
    ensures Missing([], applied) == [] && Ids([]) == {} && Plan([]) == []
  {
  }

  lemma IdsConcat(a: seq<string>, b: seq<string>)
    ensures Ids(a + b) == Ids(a) + Ids(b)
    ensures |b| == 1 ==> Ids(b) == {b[0]}
  {
  }

  lemma {:induction false} PlanSplit(roots: seq<Root>, i: nat)
    requires i < |roots|
    ensures Plan(roots[..i + 1]) == Plan(roots[..i]) + IdsOf(roots[i].name, InOrder(roots[i].files))
    ensures Plan(roots[..i + 1]) <= Plan(roots)
    decreases |roots|
  {
    hide InOrder, IdsOf;
    if i > 0 {
      assert roots[..i + 1][1..] == roots[1..][..i];
      assert roots[..i][1..] == roots[1..][..i - 1];
      PlanSplit(roots[1..], i - 1);
    } else {
      assert roots[..1][1..] == [];
      assert Plan(roots[..1]) == IdsOf(roots[0].name, InOrder(roots[0].files)) + [];
    }
  }

  lemma {:induction false} MissingPrefix(p: seq<string>, plan: seq<string>, applied: set<string>)
    requires p <= plan
    ensures Missing(p, applied) <= Missing(plan, applied)
    decreases |p|
  {
    hide *;
    assert plan == p + plan[|p|..];
    MissingConcat(p, plan[|p|..], applied);
  }
}
