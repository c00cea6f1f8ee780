/** What several of the models share. */
module Common {

  datatype Option<+T> = None | Some(value: T)

  predicate Unique<T(==)>(s: seq<T>) {
    forall i, j :: 0 <= i < j < |s| ==> s[i] != s[j]
  }

  /** Some `a` of the list comes before some `b`. */
  predicate Precedes<T(==)>(s: seq<T>, a: T, b: T) {
    exists j, k :: 0 <= j < k < |s| && s[j] == a && s[k] == b
  }

  lemma PrecedesSnoc<T>(s: seq<T>, last: T, a: T, b: T)
    ensures Precedes(s + [last], a, b) <==> Precedes(s, a, b) || (a in s && last == b)
  {
    var all := s + [last];
    if j, k :| 0 <= j < k < |s| && s[j] == a && s[k] == b {
      assert all[j] == a && all[k] == b;
    }
    if a in s && last == b {
      var j :| 0 <= j < |s| && s[j] == a;
      assert all[j] == a && all[|s|] == b;
    }
    if j, k :| 0 <= j < k < |all| && all[j] == a && all[k] == b {
      assert s[j] == a;
      assert k < |s| ==> s[k] == b;
    }
  }

  lemma PrecedesHolds<T>(s: seq<T>, a: T, b: T)
    ensures Precedes(s, a, b) ==> a in s && b in s
  {
  }
}
