/** Sorting with a comparison, equal elements keeping their order. */
module StableSort {
  function Insert<T>(x: T, sorted: seq<T>, before: (T, T) -> bool): seq<T> {
    if sorted == [] then [x]
    else if before(x, sorted[0]) then [x] + sorted
    else [sorted[0]] + Insert(x, sorted[1..], before)
  }

  function Sort<T>(s: seq<T>, before: (T, T) -> bool): seq<T> {
    if s == [] then [] else Insert(s[|s| - 1], Sort(s[..|s| - 1], before), before)
  }

  /** A comparison by some key: nothing is before itself, and "not after" is transitive. */
  ghost predicate ByKey<T(!new)>(before: (T, T) -> bool) {
    && (forall a, b :: before(a, b) ==> !before(b, a))
    && (forall a, b, c :: !before(b, a) && !before(c, b) ==> !before(c, a))
  }

  ghost predicate Sorted<T>(s: seq<T>, before: (T, T) -> bool) {
    forall i, j :: 0 <= i < j < |s| ==> !before(s[j], s[i])
  }

  lemma {:induction false} InsertMembers<T>(x: T, sorted: seq<T>, before: (T, T) -> bool)
    ensures multiset(Insert(x, sorted, before)) == multiset(sorted) + multiset{x}
  {
    if sorted != [] {
      InsertMembers(x, sorted[1..], before);
      assert sorted == [sorted[0]] + sorted[1..];
    }
  }

  lemma {:induction false} SortMembers<T>(s: seq<T>, before: (T, T) -> bool)
    ensures multiset(Sort(s, before)) == multiset(s) && |Sort(s, before)| == |s|
    ensures forall x :: x in Sort(s, before) <==> x in s
  {
    if s != [] {
      var init := s[..|s| - 1];
      SortMembers(init, before);
      InsertMembers(s[|s| - 1], Sort(init, before), before);
      assert s == init + [s[|s| - 1]];
    }
    assert |multiset(Sort(s, before))| == |multiset(s)|;
    forall x: T ensures x in Sort(s, before) <==> x in s {
      assert x in multiset(Sort(s, before)) <==> x in multiset(s);
    }
  }

  lemma {:induction false} InsertSorts<T(!new)>(x: T, sorted: seq<T>, before: (T, T) -> bool)
    requires Sorted(sorted, before) && ByKey(before)
    ensures Sorted(Insert(x, sorted, before), before)
  {
    if sorted != [] {
      InsertSorts(x, sorted[1..], before);
      InsertMembers(x, sorted[1..], before);
      var after := Insert(x, sorted, before);
      if before(x, sorted[0]) {
        forall j | 0 < j < |after| ensures !before(after[j], x) {
          assert after[j] == sorted[j - 1];
        }
      } else {
        var rest := Insert(x, sorted[1..], before);
        forall j | 0 <= j < |rest| ensures !before(rest[j], sorted[0]) {
          assert rest[j] in multiset(rest);
          assert rest[j] == x || rest[j] in multiset(sorted[1..]);
        }
      }
    }
  }

  lemma {:induction false} SortSorts<T(!new)>(s: seq<T>, before: (T, T) -> bool)
    requires ByKey(before)
    ensures Sorted(Sort(s, before), before)
  {
    if s != [] {
      SortSorts(s[..|s| - 1], before);
      InsertSorts(s[|s| - 1], Sort(s[..|s| - 1], before), before);
    }
  }

  lemma {:induction false} InsertLast<T>(x: T, sorted: seq<T>, before: (T, T) -> bool)
    requires forall i :: 0 <= i < |sorted| ==> !before(x, sorted[i])
    ensures Insert(x, sorted, before) == sorted + [x]
  {
    if sorted != [] {
      InsertLast(x, sorted[1..], before);
      assert sorted == [sorted[0]] + sorted[1..];
    }
  }

  /** What is in order already stays as it is. */
  lemma {:induction false} SortedStays<T>(s: seq<T>, before: (T, T) -> bool)
    requires Sorted(s, before)
    ensures Sort(s, before) == s
  {
    if s != [] {
      var init := s[..|s| - 1];
      SortedStays(init, before);
      InsertLast(s[|s| - 1], init, before);
      assert s == init + [s[|s| - 1]];
    }
  }
}
