/** The list of conversations, with what is summed up about each. */
module ActivitySessions {
  import opened Common
  import opened IsoStamp
  import opened Sorting
  import opened Activity

  // ---------------------------------------------------------------------------
  // One conversation

  function Earliest(calls: seq<Call>): (t: string)
    requires calls != []
    ensures exists c :: c in calls && c.ts == t
    ensures forall c :: c in calls ==> TextLe(t, c.ts)
  {
    if |calls| == 1 then
      assert TextLe(calls[0].ts, calls[0].ts);
      calls[0].ts
    else
      var rest := Earliest(calls[1..]);
      assert calls == [calls[0]] + calls[1..];
      TextTotal(calls[0].ts, rest);
      assert TextLe(calls[0].ts, rest) ==> forall c :: c in calls ==> TextLe(calls[0].ts, c.ts) by {
        forall c | c in calls[1..] && TextLe(calls[0].ts, rest) ensures TextLe(calls[0].ts, c.ts) {
          TextTransitive(calls[0].ts, rest, c.ts);
        }
      }
      if TextLe(calls[0].ts, rest) then calls[0].ts else rest
  }

  function Latest(calls: seq<Call>): (t: string)
    requires calls != []
    ensures exists c :: c in calls && c.ts == t
    ensures forall c :: c in calls ==> TextLe(c.ts, t)
  {
    if |calls| == 1 then
      assert TextLe(calls[0].ts, calls[0].ts);
      calls[0].ts
    else
      var rest := Latest(calls[1..]);
      assert calls == [calls[0]] + calls[1..];
      TextTotal(calls[0].ts, rest);
      assert TextLe(rest, calls[0].ts) ==> forall c :: c in calls ==> TextLe(c.ts, calls[0].ts) by {
        forall c | c in calls[1..] && TextLe(rest, calls[0].ts) ensures TextLe(c.ts, calls[0].ts) {
          TextTransitive(c.ts, rest, calls[0].ts);
        }
      }
      if TextLe(rest, calls[0].ts) then calls[0].ts else rest
  }

  /** The datasources in the order they were first used; `calls` runs from the newest to the oldest. */
  function DatasourcesOf(calls: seq<Call>): seq<string> {
    if calls == [] then []
    else
      var older, d := DatasourcesOf(calls[1..]), calls[0].datasource;
      if d != "" && d !in older then older + [d] else older
  }

  method CollectDatasources(calls: seq<Call>) returns (seen: seq<string>)
    ensures seen == DatasourcesOf(calls)
  {
    seen := [];
    var i := |calls|;
    while i > 0
      invariant 0 <= i <= |calls|
      invariant seen == DatasourcesOf(calls[i..])
    {
      i := i - 1;
      assert calls[i..][1..] == calls[i + 1..];
      if calls[i].datasource != "" && calls[i].datasource !in seen {
        seen := seen + [calls[i].datasource];
      }
    }
  }

  /** Where `d` was used first in time: at the last place it stands. */
  function OldestUse(calls: seq<Call>, d: string): int {
    if calls == [] then -1
    else if OldestUse(calls[1..], d) >= 0 then 1 + OldestUse(calls[1..], d)
    else if calls[0].datasource == d then 0
    else -1
  }

  /** Each datasource used is listed once, in the order of the last place it stands. */
  lemma {:induction false} DatasourcesExact(calls: seq<Call>)
    ensures Unique(DatasourcesOf(calls))
    ensures forall d :: d in DatasourcesOf(calls) <==> d != "" && OldestUse(calls, d) >= 0
    ensures forall d :: OldestUse(calls, d) >= 0 <==> exists c :: c in calls && c.datasource == d
    ensures forall i, j :: 0 <= i < j < |DatasourcesOf(calls)| ==>
              OldestUse(calls, DatasourcesOf(calls)[i]) > OldestUse(calls, DatasourcesOf(calls)[j])
    decreases |calls|
  {
    if calls != [] {
      DatasourcesExact(calls[1..]);
      assert calls == [calls[0]] + calls[1..];
      forall d ensures OldestUse(calls, d) >= 0 <==> exists c :: c in calls && c.datasource == d {
        if OldestUse(calls[1..], d) >= 0 {
          var c :| c in calls[1..] && c.datasource == d;
          assert c in calls;
        } else if calls[0].datasource == d {
          assert calls[0] in calls;
        }
      }
    }
  }

  /** The order `ORDER BY ts DESC` returns rows in. */
  ghost predicate NewestFirst(calls: seq<Call>) {
    forall i, j :: 0 <= i < j < |calls| ==> TextLe(calls[j].ts, calls[i].ts)
  }

  /** `t` is the stamp of the earliest call that used `d`. */
  ghost predicate FirstUsed(calls: seq<Call>, d: string, t: string) {
    && (exists c :: c in calls && c.datasource == d && c.ts == t)
    && (forall c :: c in calls && c.datasource == d ==> TextLe(t, c.ts))
  }

  lemma {:induction false} OldestUseIs(calls: seq<Call>, d: string)
    requires OldestUse(calls, d) >= 0
    ensures var k := OldestUse(calls, d);
            && k < |calls| && calls[k].datasource == d
            && forall j :: k < j < |calls| ==> calls[j].datasource != d
    decreases |calls|
  {
    if OldestUse(calls[1..], d) >= 0 {
      OldestUseIs(calls[1..], d);
    } else {
      forall j | 0 < j < |calls| ensures calls[j].datasource != d {
        NeverUsed(calls[1..], d);
        assert calls[j] == calls[1..][j - 1];
      }
    }
  }

  lemma NeverUsed(calls: seq<Call>, d: string)
    requires OldestUse(calls, d) < 0
    ensures forall j :: 0 <= j < |calls| ==> calls[j].datasource != d
  {
    DatasourcesExact(calls);
  }

  /** In rows from the newest to the oldest, the last place of `d` is its first use. */
  lemma OldestIsFirst(calls: seq<Call>, d: string)
    requires NewestFirst(calls) && OldestUse(calls, d) >= 0
    ensures OldestUse(calls, d) < |calls| && FirstUsed(calls, d, calls[OldestUse(calls, d)].ts)
  {
    hide OldestUse;
    OldestUseIs(calls, d);
    var k := OldestUse(calls, d);
    forall c | c in calls && c.datasource == d
      ensures TextLe(calls[k].ts, c.ts)
    {
      var j :| 0 <= j < |calls| && calls[j] == c;
      assert j <= k;
    }
  }

  /** **The datasources of rows that come newest first are in the order of their first use in time.** */
  lemma DatasourcesInTime(calls: seq<Call>, i: nat, j: nat)
    requires NewestFirst(calls) && i < j < |DatasourcesOf(calls)|
    ensures exists t, u ::
              && FirstUsed(calls, DatasourcesOf(calls)[i], t) && FirstUsed(calls, DatasourcesOf(calls)[j], u)
              && TextLe(t, u)
  {
    hide NewestFirst, FirstUsed, DatasourcesOf, OldestUse, TextLess;
    DatasourcesExact(calls);
    var ds := DatasourcesOf(calls);
    assert ds[i] in ds && ds[j] in ds;
    OldestIsFirst(calls, ds[i]);
    OldestIsFirst(calls, ds[j]);
    Newer(calls, OldestUse(calls, ds[j]), OldestUse(calls, ds[i]));
  }

  lemma Newer(calls: seq<Call>, i: nat, j: nat)
    requires NewestFirst(calls) && i < j < |calls|
    ensures TextLe(calls[j].ts, calls[i].ts)
  {
  }

  /** The calls of one key keep the order of the rows. */
  lemma {:induction false} PickedNewestFirst(rows: seq<Call>, keyOf: Call -> Key, k: Key)
    requires NewestFirst(rows)
    ensures NewestFirst(Picked(rows, keyOf, k))
    decreases |rows|
  {
    if rows != [] {
      var front, last := rows[..|rows| - 1], rows[|rows| - 1];
      PickedNewestFirst(front, keyOf, k);
      PickedIn(front, keyOf, k);
      var group := Picked(front, keyOf, k);
      forall i | 0 <= i < |group| ensures TextLe(last.ts, group[i].ts) {
        assert group[i] in group && group[i] in front;
      }
    }
  }

  function Errors(calls: seq<Call>): nat {
    if calls == [] then 0 else (if calls[0].success then 0 else 1) + Errors(calls[1..])
  }

  function SessionOf(key: Key, calls: seq<Call>): Session
    requires calls != []
  {
    Session(key, calls[0].thread, calls[0].actor, calls[0].datasource, calls, Earliest(calls), Latest(calls),
            DatasourcesOf(calls), |calls|, Errors(calls), Turns(calls))
  }

  // ---------------------------------------------------------------------------
  // All of them

  function SessionsFor(keys: seq<Key>, rows: seq<Call>): seq<Session>
    requires forall k :: k in keys ==> Picked(rows, SessionKey, k) != []
  {
    if keys == [] then [] else [SessionOf(keys[0], Picked(rows, SessionKey, keys[0]))] + SessionsFor(keys[1..], rows)
  }

  function Sessions(rows: seq<Call>): seq<Session> {
    GroupsFilled(rows, SessionKey);
    SessionsFor(FirstSeen(rows, SessionKey), rows)
  }

  lemma SessionsStep(keys: seq<Key>, rows: seq<Call>)
    requires forall k :: k in keys ==> Picked(rows, SessionKey, k) != []
    ensures SessionsFor(keys, rows) ==
            if keys == [] then []
            else [SessionOf(keys[0], Picked(rows, SessionKey, keys[0]))] + SessionsFor(keys[1..], rows)
  {
  }

  /** `list_sessions`, over the rows its query returned. */
  method ListSessions(rows: seq<Call>) returns (out: seq<Session>)
    ensures out == Sessions(rows)
  {
    hide Turns, DatasourcesOf, Earliest, Latest, Errors, Picked, FirstSeen, SessionsFor;
    var order, groups := Group(rows, SessionKey);
    GroupsFilled(rows, SessionKey);
    out := [];
    var i := 0;
    while i < |order|
      invariant 0 <= i <= |order|
      invariant out + SessionsFor(order[i..], rows) == Sessions(rows)
    {
      SessionsStep(order[i..], rows);
      var cs := groups[order[i]];
      var datasources := CollectDatasources(cs);
      var turns := GroupTurns(cs);
      assert order[i..][1..] == order[i + 1..];
      out := out + [Session(order[i], cs[0].thread, cs[0].actor, cs[0].datasource, cs, Earliest(cs), Latest(cs),
                            datasources, |cs|, Errors(cs), turns)];
      i := i + 1;
    }
    SessionsStep(order[i..], rows);
  }

  function AllCalls(sessions: seq<Session>): seq<Call> {
    if sessions == [] then [] else sessions[0].calls + AllCalls(sessions[1..])
  }

  function CountAll(sessions: seq<Session>): nat {
    if sessions == [] then 0 else sessions[0].callCount + CountAll(sessions[1..])
  }

  lemma {:induction false} SessionsForHold(keys: seq<Key>, rows: seq<Call>)
    requires forall k :: k in keys ==> Picked(rows, SessionKey, k) != []
    ensures |SessionsFor(keys, rows)| == |keys|
    ensures AllCalls(SessionsFor(keys, rows)) == Flatten(keys, rows, SessionKey)
    ensures CountAll(SessionsFor(keys, rows)) == |Flatten(keys, rows, SessionKey)|
    ensures forall i :: 0 <= i < |keys| ==>
              SessionsFor(keys, rows)[i] == SessionOf(keys[i], Picked(rows, SessionKey, keys[i]))
    decreases |keys|
  {
    hide SessionOf, Picked, SessionsFor;
    SessionsStep(keys, rows);
    if keys != [] {
      SessionsForHold(keys[1..], rows);
      SessionKeeps(keys[0], Picked(rows, SessionKey, keys[0]));
    }
  }

  lemma SessionKeeps(key: Key, calls: seq<Call>)
    requires calls != []
    ensures SessionOf(key, calls).calls == calls && SessionOf(key, calls).callCount == |calls|
  {
  }

  /** **Every fetched row is in exactly one session and in exactly one turn of it**, and the call counts
      add up to the number of rows. */
  lemma SessionsConserve(rows: seq<Call>)
    ensures multiset(AllCalls(Sessions(rows))) == multiset(rows)
    ensures CountAll(Sessions(rows)) == |rows|
    ensures forall s :: s in Sessions(rows) ==> multiset(CallsOf(s.turns)) == multiset(s.calls)
  {
    hide SessionOf, Picked, FirstSeen;
    var keys := FirstSeen(rows, SessionKey);
    GroupsFilled(rows, SessionKey);
    SessionsForHold(keys, rows);
    GroupingConserves(rows, SessionKey);
    assert |multiset(rows)| == |rows|;
    assert |multiset(Flatten(keys, rows, SessionKey))| == |Flatten(keys, rows, SessionKey)|;
    forall s | s in Sessions(rows) ensures multiset(CallsOf(s.turns)) == multiset(s.calls) {
      var k :| 0 <= k < |keys| && Sessions(rows)[k] == s;
      SessionTurns(keys[k], Picked(rows, SessionKey, keys[k]));
    }
  }

  lemma SessionTurns(key: Key, calls: seq<Call>)
    requires calls != []
    ensures var s := SessionOf(key, calls); multiset(CallsOf(s.turns)) == multiset(s.calls)
  {
    TurnsConserve(calls);
  }

  /** **`started` and `last_activity` bound every call of a session and are reached**, and its
      datasources are exactly those its calls used. */
  lemma SessionBounds(rows: seq<Call>, s: Session, c: Call)
    requires s in Sessions(rows) && c in s.calls
    ensures TextLe(s.started, c.ts) && TextLe(c.ts, s.lastActivity)
    ensures (exists a :: a in s.calls && a.ts == s.started) && (exists b :: b in s.calls && b.ts == s.lastActivity)
    ensures Unique(s.datasources)
    ensures forall d :: d in s.datasources <==> d != "" && exists b :: b in s.calls && b.datasource == d
    ensures SessionKey(c) == s.key
  {
    hide SessionOf, FirstSeen;
    GroupsFilled(rows, SessionKey);
    SessionsForHold(FirstSeen(rows, SessionKey), rows);
    var k :| 0 <= k < |FirstSeen(rows, SessionKey)| && Sessions(rows)[k] == s;
    var key := FirstSeen(rows, SessionKey)[k];
    PickedIn(rows, SessionKey, key);
    BoundsOf(key, Picked(rows, SessionKey, key), c);
  }

  /** **The datasources of a session are in the order of their first use in time**, over rows as the
      query returns them. */
  lemma SessionDatasources(rows: seq<Call>, s: Session, i: nat, j: nat)
    requires NewestFirst(rows) && s in Sessions(rows) && i < j < |s.datasources|
    ensures exists t, u ::
              && FirstUsed(s.calls, s.datasources[i], t) && FirstUsed(s.calls, s.datasources[j], u)
              && TextLe(t, u)
  {
    hide SessionOf, FirstSeen, NewestFirst, FirstUsed, DatasourcesOf, TextLess;
    GroupsFilled(rows, SessionKey);
    SessionsForHold(FirstSeen(rows, SessionKey), rows);
    var k :| 0 <= k < |FirstSeen(rows, SessionKey)| && Sessions(rows)[k] == s;
    var key := FirstSeen(rows, SessionKey)[k];
    var calls := Picked(rows, SessionKey, key);
    PickedNewestFirst(rows, SessionKey, key);
    SessionUses(key, calls);
    DatasourcesInTime(calls, i, j);
  }

  lemma SessionUses(key: Key, calls: seq<Call>)
    requires calls != []
    ensures SessionOf(key, calls).calls == calls && SessionOf(key, calls).datasources == DatasourcesOf(calls)
  {
  }

  lemma BoundsOf(key: Key, calls: seq<Call>, c: Call)
    requires calls != [] && c in SessionOf(key, calls).calls
    ensures var s := SessionOf(key, calls);
            && s.key == key && s.calls == calls
            && TextLe(s.started, c.ts) && TextLe(c.ts, s.lastActivity)
            && (exists a :: a in s.calls && a.ts == s.started) && (exists b :: b in s.calls && b.ts == s.lastActivity)
            && Unique(s.datasources)
            && (forall d :: d in s.datasources <==> d != "" && exists b :: b in s.calls && b.datasource == d)
  {
    DatasourcesExact(calls);
  }

  // ---------------------------------------------------------------------------
  // Which calls share a session

  /** `b` has no conversation, and its actor and thread spell the key of `a`'s. */
  predicate Borrows(a: Call, b: Call) {
    && a.conversation != ""
    && b.conversation == "" && b.actor == "conversation" && b.thread == a.conversation
  }

  /** Two calls share a key exactly when one of the three rules puts them together, or one borrows the
      other's. */
  lemma KeysFaithful(a: Call, b: Call)
    ensures SessionKey(a) == SessionKey(b) <==>
            || (a.conversation != "" && a.conversation == b.conversation)
            || (a.conversation == b.conversation == "" && a.thread != "" && a.thread == b.thread && a.actor == b.actor)
            || (a.conversation == b.conversation == "" && a.thread == b.thread == "" && a.id == b.id)
            || Borrows(a, b) || Borrows(b, a)
  {
  }

  /** **Two calls are in one session exactly when they share a key.** */
  lemma SameSessionIff(rows: seq<Call>, a: Call, b: Call)
    requires a in rows && b in rows
    ensures (exists s :: s in Sessions(rows) && a in s.calls && b in s.calls) <==> SessionKey(a) == SessionKey(b)
  {
    hide SessionOf, SessionKey, FirstSeen, Sessions, SessionsFor;
    var s := SessionHolding(rows, a);
    if SessionKey(a) == SessionKey(b) {
      SessionHoldsKey(rows, s, b);
    }
    if t :| t in Sessions(rows) && a in t.calls && b in t.calls {
      SessionBounds(rows, t, a);
      SessionBounds(rows, t, b);
    }
  }

  /** A row is in the session of its key. */
  lemma SessionHolding(rows: seq<Call>, c: Call) returns (s: Session)
    requires c in rows
    ensures s in Sessions(rows) && s.key == SessionKey(c) && c in s.calls
  {
    hide SessionOf, SessionKey;
    var keys := FirstSeen(rows, SessionKey);
    GroupsFilled(rows, SessionKey);
    FirstSeenExact(rows, SessionKey);
    SessionsForHold(keys, rows);
    assert SessionKey(c) in keys;
    var k :| 0 <= k < |keys| && keys[k] == SessionKey(c);
    s := Sessions(rows)[k];
    PickedIn(rows, SessionKey, keys[k]);
    SessionIs(keys[k], Picked(rows, SessionKey, keys[k]));
  }

  lemma SessionIs(key: Key, calls: seq<Call>)
    requires calls != []
    ensures SessionOf(key, calls).key == key && SessionOf(key, calls).calls == calls
  {
  }

  lemma SessionHoldsKey(rows: seq<Call>, s: Session, c: Call)
    requires s in Sessions(rows) && c in rows && s.key == SessionKey(c)
    ensures c in s.calls
  {
    hide SessionOf, SessionKey;
    var keys := FirstSeen(rows, SessionKey);
    GroupsFilled(rows, SessionKey);
    SessionsForHold(keys, rows);
    var k :| 0 <= k < |keys| && Sessions(rows)[k] == s;
    PickedIn(rows, SessionKey, keys[k]);
    SessionIs(keys[k], Picked(rows, SessionKey, keys[k]));
  }

  ghost predicate Mixed(s: Session) {
    exists a, b :: a in s.calls && b in s.calls && a.conversation != b.conversation
  }

  /** **A listed session mixes conversations exactly when some row borrows another row's key**, and
      then it is those two it mixes. */
  lemma MixedIff(rows: seq<Call>)
    ensures (exists s :: s in Sessions(rows) && Mixed(s)) <==>
            (exists a, b :: a in rows && b in rows && Borrows(a, b))
    ensures forall s, a, b :: s in Sessions(rows) && a in s.calls && b in s.calls ==>
              (a.conversation != b.conversation <==> Borrows(a, b) || Borrows(b, a))
  {
    hide Sessions;
    forall s, a, b | s in Sessions(rows) && a in s.calls && b in s.calls
      ensures a in rows && b in rows
      ensures a.conversation != b.conversation <==> Borrows(a, b) || Borrows(b, a)
    {
      SessionBounds(rows, s, a);
      SessionBounds(rows, s, b);
      CallsAreRows(rows, s, a);
      CallsAreRows(rows, s, b);
      KeysFaithful(a, b);
    }
    if a, b :| a in rows && b in rows && Borrows(a, b) {
      KeysFaithful(a, b);
      SameSessionIff(rows, a, b);
      var s :| s in Sessions(rows) && a in s.calls && b in s.calls;
      assert Mixed(s);
    }
  }

  lemma CallsAreRows(rows: seq<Call>, s: Session, c: Call)
    requires s in Sessions(rows) && c in s.calls
    ensures c in rows
  {
    hide SessionOf, SessionKey;
    var keys := FirstSeen(rows, SessionKey);
    GroupsFilled(rows, SessionKey);
    SessionsForHold(keys, rows);
    var k :| 0 <= k < |keys| && Sessions(rows)[k] == s;
    PickedIn(rows, SessionKey, keys[k]);
    SessionIs(keys[k], Picked(rows, SessionKey, keys[k]));
  }

  /** Such rows exist: an actor named `conversation` whose thread has the name of a conversation. */
  lemma BorrowedSession()
    ensures var ours := Call("1", "t1", "ann", "", "c7", "", "sales", "", "", true);
            var theirs := Call("2", "t2", "conversation", "c7", "", "", "sales", "", "", true);
            exists s :: s in Sessions([theirs, ours]) && ours in s.calls && theirs in s.calls && Mixed(s)
  {
    var ours := Call("1", "t1", "ann", "", "c7", "", "sales", "", "", true);
    var theirs := Call("2", "t2", "conversation", "c7", "", "", "sales", "", "", true);
    hide Sessions;
    SameSessionIff([theirs, ours], ours, theirs);
    var s :| s in Sessions([theirs, ours]) && ours in s.calls && theirs in s.calls;
    assert Mixed(s);
  }

  // ---------------------------------------------------------------------------
  // What a session says of its calls

  function Outcomes(calls: seq<Call>): (r: seq<bool>)
    ensures |r| == |calls| && forall k :: 0 <= k < |r| ==> r[k] == calls[k].success
  {
    if calls == [] then [] else [calls[0].success] + Outcomes(calls[1..])
  }

  lemma {:induction false} ErrorsAre(calls: seq<Call>)
    ensures Errors(calls) == multiset(Outcomes(calls))[false]
    decreases |calls|
  {
    if calls != [] {
      ErrorsAre(calls[1..]);
    }
  }

  /** **A session counts exactly the calls that did not succeed**, and takes its thread, actor and
      datasource from the newest of its calls. */
  lemma SessionSays(rows: seq<Call>, s: Session)
    requires s in Sessions(rows)
    ensures s.calls != [] && s.callCount == |s.calls|
    ensures s.errorCount == multiset(Outcomes(s.calls))[false]
    ensures s.thread == s.calls[0].thread && s.actor == s.calls[0].actor && s.datasource == s.calls[0].datasource
    ensures s.turns == Turns(s.calls)
  {
    hide FirstSeen, Picked, Turns, SessionOf, Errors;
    GroupsFilled(rows, SessionKey);
    SessionsForHold(FirstSeen(rows, SessionKey), rows);
    var k :| 0 <= k < |FirstSeen(rows, SessionKey)| && Sessions(rows)[k] == s;
    var key := FirstSeen(rows, SessionKey)[k];
    SessionFields(key, Picked(rows, SessionKey, key));
    ErrorsAre(s.calls);
  }

  lemma SessionFields(key: Key, calls: seq<Call>)
    requires calls != []
    ensures var s := SessionOf(key, calls);
            && s.calls == calls && s.callCount == |calls| && s.errorCount == Errors(calls)
            && s.thread == calls[0].thread && s.actor == calls[0].actor && s.datasource == calls[0].datasource
            && s.turns == Turns(calls)
  {
    hide Turns, Errors;
  }
}
