/** The activity view: calls grouped into conversations, and each conversation into turns. */
module Activity {
  import opened Common
  import opened IsoStamp
  import opened Sorting

  /** A row of `tool_calls`. An absent text is empty, and `ts` is the stored text of the time. */
  datatype Call = Call(id: string, ts: string, actor: string, thread: string, conversation: string,
                       correlation: string, datasource: string, question: string, source: string, success: bool)

  /** A grouping key: a pair of texts or one text. */
  datatype Key = Pair(first: string, second: string) | One(id: string)

  datatype Turn = Turn(question: Option<string>, started: string, calls: seq<Call>, selfReported: bool)

  datatype Session = Session(key: Key, thread: string, actor: string, datasource: string, calls: seq<Call>,
                             started: string, lastActivity: string, datasources: seq<string>,
                             callCount: nat, errorCount: nat, turns: seq<Turn>)

  const DEFAULT_SOURCE := "mcp_server"

  function SessionKey(c: Call): Key {
    if c.conversation != "" then Pair("conversation", c.conversation)
    else if c.thread != "" then Pair(c.actor, c.thread)
    else One(c.id)
  }

  function TurnKey(c: Call): Key {
    One(if c.correlation != "" then c.correlation else c.id)
  }

  // ---------------------------------------------------------------------------
  // Grouping

  /** The calls with key `k`, in order. */
  function Picked(calls: seq<Call>, keyOf: Call -> Key, k: Key): seq<Call> {
    if calls == [] then []
    else
      var front, last := calls[..|calls| - 1], calls[|calls| - 1];
      Picked(front, keyOf, k) + (if keyOf(last) == k then [last] else [])
  }

  /** Each key once, where it is first seen. */
  function FirstSeen(calls: seq<Call>, keyOf: Call -> Key): seq<Key> {
    if calls == [] then []
    else
      var seen, k := FirstSeen(calls[..|calls| - 1], keyOf), keyOf(calls[|calls| - 1]);
      if k in seen then seen else seen + [k]
  }

  /** Both grouping loops: a dictionary of lists and the order its keys appeared in. */
  method Group(calls: seq<Call>, keyOf: Call -> Key) returns (order: seq<Key>, groups: map<Key, seq<Call>>)
    ensures order == FirstSeen(calls, keyOf)
    ensures forall k :: k in groups <==> k in order
    ensures forall k :: k in order ==> groups[k] == Picked(calls, keyOf, k)
  {
    order, groups := [], map[];
    var i := 0;
    while i < |calls|
      invariant 0 <= i <= |calls|
      invariant order == FirstSeen(calls[..i], keyOf)
      invariant forall k :: k in groups <==> k in order
      invariant forall k :: k in order ==> groups[k] == Picked(calls[..i], keyOf, k)
      invariant forall k :: k !in order ==> Picked(calls[..i], keyOf, k) == []
    {
      var c := calls[i];
      var k := keyOf(c);
      assert calls[..i + 1][..i] == calls[..i] && calls[..i + 1][i] == c;
      if k !in groups {
        groups := groups[k := []];
        order := order + [k];
      }
      groups := groups[k := groups[k] + [c]];
      i := i + 1;
    }
    assert calls[..|calls|] == calls;
  }

  /** The order lists exactly the keys that occur, each once. */
  lemma {:induction false} FirstSeenExact(calls: seq<Call>, keyOf: Call -> Key)
    ensures Unique(FirstSeen(calls, keyOf))
    ensures forall k :: k in FirstSeen(calls, keyOf) <==> exists c :: c in calls && keyOf(c) == k
    decreases |calls|
  {
    if calls != [] {
      var front, last := calls[..|calls| - 1], calls[|calls| - 1];
      assert calls == front + [last];
      FirstSeenExact(front, keyOf);
      var seen := FirstSeen(front, keyOf);
      forall k ensures k in FirstSeen(calls, keyOf) <==> exists c :: c in calls && keyOf(c) == k {
        if k in seen {
          var c :| c in front && keyOf(c) == k;
          assert c in calls;
        }
        if k == keyOf(last) {
          assert last in calls;
        }
      }
    }
  }

  /** `a` occurs at a place up to which `b` does not. */
  ghost predicate SeenBefore(calls: seq<Call>, keyOf: Call -> Key, a: Key, b: Key) {
    exists p: nat :: p < |calls| && keyOf(calls[p]) == a && forall q :: 0 <= q <= p ==> keyOf(calls[q]) != b
  }

  /** Keys stand in the order of their first calls. */
  lemma {:induction false} FirstSeenInOrder(calls: seq<Call>, keyOf: Call -> Key, i: nat, j: nat)
    requires i < j < |FirstSeen(calls, keyOf)|
    ensures SeenBefore(calls, keyOf, FirstSeen(calls, keyOf)[i], FirstSeen(calls, keyOf)[j])
    decreases |calls|
  {
    var front, last := calls[..|calls| - 1], calls[|calls| - 1];
    var seen := FirstSeen(front, keyOf);
    FirstSeenExact(front, keyOf);
    assert calls == front + [last];
    var p: nat;
    if j < |seen| {
      FirstSeenInOrder(front, keyOf, i, j);
      p :| p < |front| && keyOf(front[p]) == seen[i] && forall q :: 0 <= q <= p ==> keyOf(front[q]) != seen[j];
    } else {
      assert seen[i] in seen;
      var c :| c in front && keyOf(c) == seen[i];
      p :| p < |front| && front[p] == c;
      forall q | 0 <= q <= p ensures keyOf(front[q]) != keyOf(last) {
        assert front[q] in front;
      }
    }
    assert keyOf(calls[p]) == seen[i];
    forall q | 0 <= q <= p ensures keyOf(calls[q]) != FirstSeen(calls, keyOf)[j] {
      assert calls[q] == front[q];
    }
  }

  /** **A group is the calls of its key in their order**: those at its places, which ascend and are all
      there are. */
  lemma {:induction false} GroupPlaces(calls: seq<Call>, keyOf: Call -> Key, k: Key) returns (places: seq<nat>)
    ensures |places| == |Picked(calls, keyOf, k)|
    ensures forall i, j :: 0 <= i < j < |places| ==> places[i] < places[j]
    ensures forall i :: 0 <= i < |places| ==> places[i] < |calls| && calls[places[i]] == Picked(calls, keyOf, k)[i]
    ensures forall p: nat :: p < |calls| ==> (keyOf(calls[p]) == k <==> p in places)
    decreases |calls|
  {
    places := [];
    if calls != [] {
      var n := |calls| - 1;
      var front := calls[..n];
      places := GroupPlaces(front, keyOf, k);
      assert forall p: nat :: p in places ==> p < n;
      if keyOf(calls[n]) == k {
        var older := places;
        places := older + [n];
        forall p: nat ensures p in places <==> p in older || p == n {}
      }
      forall p: nat | p < n ensures calls[p] == front[p] {}
    }
  }

  /** The groups of some keys, one after the other. */
  function Flatten(keys: seq<Key>, calls: seq<Call>, keyOf: Call -> Key): seq<Call> {
    if keys == [] then [] else Picked(calls, keyOf, keys[0]) + Flatten(keys[1..], calls, keyOf)
  }

  function Among(calls: seq<Call>, keyOf: Call -> Key, keys: seq<Key>): seq<Call> {
    if calls == [] then []
    else
      var front, last := calls[..|calls| - 1], calls[|calls| - 1];
      Among(front, keyOf, keys) + (if keyOf(last) in keys then [last] else [])
  }

  lemma {:induction false} AmongSplit(calls: seq<Call>, keyOf: Call -> Key, keys: seq<Key>)
    requires keys != [] && keys[0] !in keys[1..]
    ensures multiset(Among(calls, keyOf, keys)) ==
            multiset(Picked(calls, keyOf, keys[0])) + multiset(Among(calls, keyOf, keys[1..]))
    decreases |calls|
  {
    hide Among, Picked;
    AmongStep(calls, keyOf, keys);
    if calls != [] {
      AmongSplit(calls[..|calls| - 1], keyOf, keys);
      assert keys == [keys[0]] + keys[1..];
    }
  }

  lemma AmongStep(calls: seq<Call>, keyOf: Call -> Key, keys: seq<Key>)
    requires keys != []
    ensures calls == [] ==>
              Among(calls, keyOf, keys) == Among(calls, keyOf, keys[1..]) == Picked(calls, keyOf, keys[0]) == []
    ensures calls != [] ==>
              var front, last := calls[..|calls| - 1], calls[|calls| - 1];
              && multiset(Among(calls, keyOf, keys)) ==
                 multiset(Among(front, keyOf, keys)) + (if keyOf(last) in keys then multiset{last} else multiset{})
              && multiset(Among(calls, keyOf, keys[1..])) ==
                 multiset(Among(front, keyOf, keys[1..]))
                   + (if keyOf(last) in keys[1..] then multiset{last} else multiset{})
              && multiset(Picked(calls, keyOf, keys[0])) ==
                 multiset(Picked(front, keyOf, keys[0]))
                   + (if keyOf(last) == keys[0] then multiset{last} else multiset{})
  {
  }

  lemma {:induction false} FlattenAmong(keys: seq<Key>, calls: seq<Call>, keyOf: Call -> Key)
    requires Unique(keys)
    ensures multiset(Flatten(keys, calls, keyOf)) == multiset(Among(calls, keyOf, keys))
    decreases |keys|
  {
    if keys == [] {
      AmongNone(calls, keyOf);
    } else {
      FlattenAmong(keys[1..], calls, keyOf);
      AmongSplit(calls, keyOf, keys);
    }
  }

  lemma {:induction false} AmongNone(calls: seq<Call>, keyOf: Call -> Key)
    ensures Among(calls, keyOf, []) == []
    decreases |calls|
  {
    if calls != [] {
      AmongNone(calls[..|calls| - 1], keyOf);
    }
  }

  lemma {:induction false} AmongAll(calls: seq<Call>, keyOf: Call -> Key, keys: seq<Key>)
    requires forall c :: c in calls ==> keyOf(c) in keys
    ensures Among(calls, keyOf, keys) == calls
    decreases |calls|
  {
    if calls != [] {
      AmongAll(calls[..|calls| - 1], keyOf, keys);
      assert calls == calls[..|calls| - 1] + [calls[|calls| - 1]];
    }
  }

  /** **Grouping conserves calls**: one after the other, the groups are a permutation of the calls, so
      every call is in exactly one group. */
  lemma GroupingConserves(calls: seq<Call>, keyOf: Call -> Key)
    ensures multiset(Flatten(FirstSeen(calls, keyOf), calls, keyOf)) == multiset(calls)
  {
    FirstSeenExact(calls, keyOf);
    FlattenAmong(FirstSeen(calls, keyOf), calls, keyOf);
    AmongAll(calls, keyOf, FirstSeen(calls, keyOf));
  }

  lemma {:induction false} PickedIn(calls: seq<Call>, keyOf: Call -> Key, k: Key)
    ensures forall c :: c in Picked(calls, keyOf, k) <==> c in calls && keyOf(c) == k
    decreases |calls|
  {
    if calls != [] {
      PickedIn(calls[..|calls| - 1], keyOf, k);
      assert calls == calls[..|calls| - 1] + [calls[|calls| - 1]];
    }
  }

  // ---------------------------------------------------------------------------
  // Turns

  predicate EarlierOrSame(a: Call, b: Call) { TextLe(a.ts, b.ts) }

  function InTimeOrder(calls: seq<Call>): (r: seq<Call>)
    ensures |r| == |calls|
  {
    Sorted(calls, (a, b) => EarlierOrSame(a, b))
  }

  lemma TimeOrdered(calls: seq<Call>)
    ensures multiset(InTimeOrder(calls)) == multiset(calls)
    ensures forall i, j :: 0 <= i < j < |calls| ==> TextLe(InTimeOrder(calls)[i].ts, InTimeOrder(calls)[j].ts)
  {
    var le := (a, b) => EarlierOrSame(a, b);
    forall a: Call, b: Call ensures le(a, b) || le(b, a) { TextTotal(a.ts, b.ts); }
    forall a: Call, b: Call, c: Call | le(a, b) && le(b, c) ensures le(a, c) { TextTransitive(a.ts, b.ts, c.ts); }
    SortedHolds(calls, le);
    SortedOrdered(calls, le);
  }

  /** Calls of one time keep their order. */
  lemma TiesKeepOrder(calls: seq<Call>, ts: string)
    ensures Keep(InTimeOrder(calls), (c: Call) => c.ts == ts) == Keep(calls, (c: Call) => c.ts == ts)
  {
    TextTotal(ts, ts);
    SortedStable(calls, (a, b) => EarlierOrSame(a, b), (c: Call) => c.ts == ts);
  }

  /** The first question a call of the list reported. */
  function FirstQuestion(calls: seq<Call>): Option<string> {
    if calls == [] then None
    else if calls[0].question != "" then Some(calls[0].question)
    else FirstQuestion(calls[1..])
  }

  function SourceOf(c: Call): string { if c.source == "" then DEFAULT_SOURCE else c.source }

  function Sources(calls: seq<Call>): set<string> { set c | c in calls :: SourceOf(c) }

  /** `_question_is_self_reported` */
  predicate SelfReported(calls: seq<Call>) {
    |Sources(calls)| != 1 || DEFAULT_SOURCE in Sources(calls)
  }

  function TurnOf(calls: seq<Call>): Turn
    requires calls != []
  {
    var tc := InTimeOrder(calls);
    Turn(FirstQuestion(tc), tc[0].ts, tc, SelfReported(tc))
  }

  function TurnsFor(keys: seq<Key>, calls: seq<Call>): seq<Turn>
    requires forall k :: k in keys ==> Picked(calls, TurnKey, k) != []
  {
    if keys == [] then [] else [TurnOf(Picked(calls, TurnKey, keys[0]))] + TurnsFor(keys[1..], calls)
  }

  lemma {:induction false} GroupsFilled(calls: seq<Call>, keyOf: Call -> Key)
    ensures forall k :: k in FirstSeen(calls, keyOf) ==> Picked(calls, keyOf, k) != []
    decreases |calls|
  {
    if calls != [] {
      GroupsFilled(calls[..|calls| - 1], keyOf);
    }
  }

  function Turns(calls: seq<Call>): seq<Turn> {
    GroupsFilled(calls, TurnKey);
    TurnsFor(FirstSeen(calls, TurnKey), calls)
  }

  /** `_group_turns` */
  method GroupTurns(calls: seq<Call>) returns (turns: seq<Turn>)
    ensures turns == Turns(calls)
  {
    var order, groups := Group(calls, TurnKey);
    GroupsFilled(calls, TurnKey);
    turns := [];
    var i := 0;
    while i < |order|
      invariant 0 <= i <= |order|
      invariant turns + TurnsFor(order[i..], calls) == Turns(calls)
    {
      var tc := InTimeOrder(groups[order[i]]);
      assert order[i..][1..] == order[i + 1..];
      turns := turns + [Turn(FirstQuestion(tc), tc[0].ts, tc, SelfReported(tc))];
      i := i + 1;
    }
  }

  function CallsOf(turns: seq<Turn>): seq<Call> {
    if turns == [] then [] else turns[0].calls + CallsOf(turns[1..])
  }

  lemma {:induction false} TurnsForHold(keys: seq<Key>, calls: seq<Call>)
    requires forall k :: k in keys ==> Picked(calls, TurnKey, k) != []
    ensures |TurnsFor(keys, calls)| == |keys|
    ensures multiset(CallsOf(TurnsFor(keys, calls))) == multiset(Flatten(keys, calls, TurnKey))
    ensures forall i :: 0 <= i < |keys| ==> TurnsFor(keys, calls)[i] == TurnOf(Picked(calls, TurnKey, keys[i]))
    decreases |keys|
  {
    if keys != [] {
      TurnsForHold(keys[1..], calls);
      TimeOrdered(Picked(calls, TurnKey, keys[0]));
    }
  }

  /** **Every call of a conversation is in exactly one turn, and each turn is in time order** from its
      start. */
  lemma TurnsConserve(calls: seq<Call>)
    ensures multiset(CallsOf(Turns(calls))) == multiset(calls)
    ensures forall t, i, j :: t in Turns(calls) && 0 <= i < j < |t.calls| ==> TextLe(t.calls[i].ts, t.calls[j].ts)
    ensures forall t :: t in Turns(calls) ==> t.calls != [] && t.started == t.calls[0].ts
  {
    GroupsFilled(calls, TurnKey);
    TurnsForHold(FirstSeen(calls, TurnKey), calls);
    GroupingConserves(calls, TurnKey);
    forall t | t in Turns(calls)
      ensures t.calls != [] && t.started == t.calls[0].ts
      ensures forall i, j :: 0 <= i < j < |t.calls| ==> TextLe(t.calls[i].ts, t.calls[j].ts)
    {
      var k :| 0 <= k < |FirstSeen(calls, TurnKey)| && Turns(calls)[k] == t;
      TimeOrdered(Picked(calls, TurnKey, FirstSeen(calls, TurnKey)[k]));
    }
  }

  // ---------------------------------------------------------------------------
  // Which calls share a turn

  /** The turn of each key holds exactly the calls of that key. */
  lemma TurnHolds(calls: seq<Call>, k: nat)
    ensures |Turns(calls)| == |FirstSeen(calls, TurnKey)|
    ensures k < |Turns(calls)| ==>
              forall c :: c in Turns(calls)[k].calls <==> c in calls && TurnKey(c) == FirstSeen(calls, TurnKey)[k]
  {
    hide FirstSeen, InTimeOrder, Picked, TurnsFor;
    var keys := FirstSeen(calls, TurnKey);
    GroupsFilled(calls, TurnKey);
    TurnsForHold(keys, calls);
    if k < |keys| {
      var group := Picked(calls, TurnKey, keys[k]);
      TimeOrdered(group);
      PickedIn(calls, TurnKey, keys[k]);
      forall c
        ensures c in InTimeOrder(group) <==> c in group
      {
        assert c in multiset(InTimeOrder(group)) <==> c in multiset(group);
      }
    }
  }

  ghost predicate ShareTurn(calls: seq<Call>, a: Call, b: Call) {
    exists t :: t in Turns(calls) && a in t.calls && b in t.calls
  }

  /** **Two calls are in one turn exactly when they share a key.** */
  lemma SameTurnIff(calls: seq<Call>, a: Call, b: Call)
    requires a in calls && b in calls
    ensures ShareTurn(calls, a, b) <==> TurnKey(a) == TurnKey(b)
  {
    hide Turns, TurnKey, FirstSeen;
    var keys := FirstSeen(calls, TurnKey);
    FirstSeenExact(calls, TurnKey);
    if t :| t in Turns(calls) && a in t.calls && b in t.calls {
      var k :| 0 <= k < |Turns(calls)| && Turns(calls)[k] == t;
      TurnHolds(calls, k);
    }
    if TurnKey(a) == TurnKey(b) {
      assert TurnKey(a) in keys;
      var k :| 0 <= k < |keys| && keys[k] == TurnKey(a);
      TurnHolds(calls, k);
      assert Turns(calls)[k] in Turns(calls);
    }
  }

  /** `b` has no correlation id, and its own id is `a`'s. */
  predicate NamesTurn(a: Call, b: Call) {
    a.correlation != "" && b.correlation == "" && b.id == a.correlation
  }

  /** **Two calls of a turn differ in their correlation id exactly when one of them has none and its own
      id is the other's**; and some turn holds such a pair exactly when the calls do. */
  lemma MixedTurnIff(calls: seq<Call>)
    ensures forall a, b :: a in calls && b in calls && ShareTurn(calls, a, b) ==>
              (a.correlation != b.correlation <==> NamesTurn(a, b) || NamesTurn(b, a))
    ensures (exists a, b :: a in calls && b in calls && ShareTurn(calls, a, b) && a.correlation != b.correlation) <==>
            (exists a, b :: a in calls && b in calls && NamesTurn(a, b))
  {
    hide ShareTurn;
    forall a, b | a in calls && b in calls
      ensures ShareTurn(calls, a, b) <==> TurnKey(a) == TurnKey(b)
    {
      SameTurnIff(calls, a, b);
    }
    if a, b :| a in calls && b in calls && NamesTurn(a, b) {
      assert ShareTurn(calls, a, b);
    }
  }

  /** The marker is dropped only when every call agrees on one source other than the default. */
  lemma SelfReportedExact(calls: seq<Call>)
    ensures !SelfReported(calls) <==>
            calls != [] && SourceOf(calls[0]) != DEFAULT_SOURCE
            && forall c :: c in calls ==> SourceOf(c) == SourceOf(calls[0])
  {
    if calls != [] {
      var s := SourceOf(calls[0]);
      assert calls[0] in calls && s in Sources(calls);
      if !SelfReported(calls) {
        forall c | c in calls ensures SourceOf(c) == s {
          OnlyOne(Sources(calls), s, SourceOf(c));
        }
      } else if forall c :: c in calls ==> SourceOf(c) == s {
        assert Sources(calls) == {s};
      }
    }
  }

  lemma OnlyOne<T>(s: set<T>, a: T, b: T)
    requires |s| == 1 && a in s && b in s
    ensures a == b
  {
    assert |s - {a}| == 0;
    assert b !in s - {a};
  }

  // ---------------------------------------------------------------------------
  // What a turn says

  lemma {:induction false} FirstQuestionIs(calls: seq<Call>)
    ensures match FirstQuestion(calls)
            case None => forall k :: 0 <= k < |calls| ==> calls[k].question == ""
            case Some(question) =>
              exists k :: 0 <= k < |calls| && calls[k].question == question != ""
                          && forall j :: 0 <= j < k ==> calls[j].question == ""
    decreases |calls|
  {
    if calls != [] && calls[0].question == "" {
      FirstQuestionIs(calls[1..]);
      if FirstQuestion(calls).Some? {
        var k :| 0 <= k < |calls[1..]| && calls[1..][k].question == FirstQuestion(calls).value != ""
                 && forall j :: 0 <= j < k ==> calls[1..][j].question == "";
        forall j | 0 <= j < k + 1 ensures calls[j].question == "" {
          if j > 0 {
            assert calls[j] == calls[1..][j - 1];
          }
        }
        assert calls[k + 1] == calls[1..][k];
      } else {
        forall k | 0 <= k < |calls| ensures calls[k].question == "" {
          if k > 0 {
            assert calls[k] == calls[1..][k - 1];
          }
        }
      }
    } else if calls != [] {
      assert calls[0].question != "";
    }
  }

  /** **A turn shows the earliest question its calls reported**, none when none did, and says it is
      self-reported unless every call names one and the same source other than the default. */
  lemma TurnSays(calls: seq<Call>, t: Turn)
    requires t in Turns(calls)
    ensures t.question == None <==> forall k :: 0 <= k < |t.calls| ==> t.calls[k].question == ""
    ensures t.question.Some? ==>
              exists k :: 0 <= k < |t.calls| && t.calls[k].question == t.question.value != ""
                          && forall j :: 0 <= j < k ==> t.calls[j].question == ""
    ensures !t.selfReported <==>
            t.calls != [] && t.calls[0].source !in {"", "mcp_server"}
            && forall c :: c in t.calls ==> c.source == t.calls[0].source
  {
    hide FirstSeen, Picked, FirstQuestion, SelfReported, SourceOf;
    GroupsFilled(calls, TurnKey);
    TurnsForHold(FirstSeen(calls, TurnKey), calls);
    var k :| 0 <= k < |FirstSeen(calls, TurnKey)| && Turns(calls)[k] == t;
    TurnOfIs(Picked(calls, TurnKey, FirstSeen(calls, TurnKey)[k]));
    FirstQuestionIs(t.calls);
    SelfReportedExact(t.calls);
    forall c ensures SourceOf(c) == if c.source == "" then "mcp_server" else c.source {
      SourceIs(c);
    }
  }

  lemma SourceIs(c: Call)
    ensures SourceOf(c) == if c.source == "" then "mcp_server" else c.source
  {
  }

  lemma TurnOfIs(calls: seq<Call>)
    requires calls != []
    ensures var t := TurnOf(calls); t.question == FirstQuestion(t.calls) && t.selfReported == SelfReported(t.calls)
  {
  }
}
