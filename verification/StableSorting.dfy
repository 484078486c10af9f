/**
 A stable sort under a total preorder, and exactly when two lists sort to the same list.
 JavaScript's Array.prototype.sort is stable, and localeCompare may call two distinct
 strings equal, so a preorder is what the comparator gives.
 */
module StableSorting {

  ghost predicate TotalPreorder<T(!new)>(le: (T, T) -> bool) {
    && (forall x, y :: le(x, y) || le(y, x))
    && (forall x, y, z :: le(x, y) && le(y, z) ==> le(x, z))
  }

  predicate Same<T>(le: (T, T) -> bool, x: T, y: T) {
    le(x, y) && le(y, x)
  }

  ghost predicate Sorted<T>(le: (T, T) -> bool, s: seq<T>) {
    forall i, j :: 0 <= i < j < |s| ==> le(s[i], s[j])
  }

  /** The elements the order cannot tell from `x`, in the order they come. */
  function ClassOf<T>(le: (T, T) -> bool, s: seq<T>, x: T): seq<T> {
    if s == [] then []
    else
      var rest, last := ClassOf(le, s[..|s| - 1], x), s[|s| - 1];
      if Same(le, last, x) then rest + [last] else rest
  }

  ghost predicate SameClasses<T(!new)>(le: (T, T) -> bool, a: seq<T>, b: seq<T>) {
    forall x :: ClassOf(le, a, x) == ClassOf(le, b, x)
  }

  /** After every element that is not greater. */
  function Insert<T>(le: (T, T) -> bool, s: seq<T>, x: T): seq<T> {
    if s == [] || le(s[|s| - 1], x) then s + [x]
    else Insert(le, s[..|s| - 1], x) + [s[|s| - 1]]
  }

  function Sort<T>(le: (T, T) -> bool, s: seq<T>): seq<T> {
    if s == [] then [] else Insert(le, Sort(le, s[..|s| - 1]), s[|s| - 1])
  }

  lemma ClassOneMore<T>(le: (T, T) -> bool, s: seq<T>, y: T, x: T)
    ensures ClassOf(le, s + [y], x) == ClassOf(le, s, x) + (if Same(le, y, x) then [y] else [])
  {
    assert (s + [y])[..|s|] == s;
  }

  lemma {:induction false} InsertClass<T(!new)>(le: (T, T) -> bool, s: seq<T>, y: T, x: T)
    requires TotalPreorder(le)
    ensures ClassOf(le, Insert(le, s, y), x) == ClassOf(le, s, x) + (if Same(le, y, x) then [y] else [])
  {
    if s == [] || le(s[|s| - 1], y) {
      ClassOneMore(le, s, y, x);
    } else {
      var front, last := s[..|s| - 1], s[|s| - 1];
      InsertClass(le, front, y, x);
      ClassOneMore(le, Insert(le, front, y), last, x);
    }
  }

  lemma {:induction false} SortKeepsClasses<T(!new)>(le: (T, T) -> bool, s: seq<T>, x: T)
    requires TotalPreorder(le)
    ensures ClassOf(le, Sort(le, s), x) == ClassOf(le, s, x)
  {
    if s != [] {
      SortKeepsClasses(le, s[..|s| - 1], x);
      InsertClass(le, Sort(le, s[..|s| - 1]), s[|s| - 1], x);
    }
  }

  lemma {:induction false} InsertMembers<T>(le: (T, T) -> bool, s: seq<T>, y: T)
    ensures forall x :: x in Insert(le, s, y) <==> x in s || x == y
  {
    if s != [] && !le(s[|s| - 1], y) {
      InsertMembers(le, s[..|s| - 1], y);
      assert s == s[..|s| - 1] + [s[|s| - 1]];
    }
  }

  lemma {:induction false} InsertSorted<T(!new)>(le: (T, T) -> bool, s: seq<T>, y: T)
    requires TotalPreorder(le) && Sorted(le, s)
    ensures Sorted(le, Insert(le, s, y))
  {
    if s != [] && !le(s[|s| - 1], y) {
      var front, last := s[..|s| - 1], s[|s| - 1];
      InsertSorted(le, front, y);
      InsertMembers(le, front, y);
      var r := Insert(le, front, y);
      forall i | 0 <= i < |r| ensures le(r[i], last) {
        assert r[i] in r;
        if r[i] in front {
          var k :| 0 <= k < |front| && front[k] == r[i];
        }
      }
    }
  }

  lemma {:induction false} SortSorts<T(!new)>(le: (T, T) -> bool, s: seq<T>)
    requires TotalPreorder(le)
    ensures Sorted(le, Sort(le, s))
  {
    if s != [] {
      SortSorts(le, s[..|s| - 1]);
      InsertSorted(le, Sort(le, s[..|s| - 1]), s[|s| - 1]);
    }
  }

  lemma {:induction false} SortKeepsElements<T(!new)>(le: (T, T) -> bool, s: seq<T>)
    ensures |Sort(le, s)| == |s| && forall x :: x in Sort(le, s) <==> x in s
  {
    if s != [] {
      var front, last := s[..|s| - 1], s[|s| - 1];
      SortKeepsElements(le, front);
      InsertMembers(le, Sort(le, front), last);
      InsertLength(le, Sort(le, front), last);
      assert s == front + [last];
    }
  }

  lemma {:induction false} InsertLength<T>(le: (T, T) -> bool, s: seq<T>, y: T)
    ensures |Insert(le, s, y)| == |s| + 1
  {
    if s != [] && !le(s[|s| - 1], y) {
      InsertLength(le, s[..|s| - 1], y);
    }
  }

  lemma {:induction false} ClassMembers<T>(le: (T, T) -> bool, s: seq<T>, x: T)
    ensures forall y :: y in ClassOf(le, s, x) <==> y in s && Same(le, y, x)
  {
    if s != [] {
      ClassMembers(le, s[..|s| - 1], x);
      assert s == s[..|s| - 1] + [s[|s| - 1]];
    }
  }

  lemma LastIsGreatest<T(!new)>(le: (T, T) -> bool, s: seq<T>, y: T)
    requires TotalPreorder(le) && Sorted(le, s) && y in s
    ensures le(y, s[|s| - 1])
  {
    var i :| 0 <= i < |s| && s[i] == y;
  }

  lemma SameMembers<T(!new)>(le: (T, T) -> bool, a: seq<T>, b: seq<T>)
    requires TotalPreorder(le) && SameClasses(le, a, b)
    ensures forall x :: x in a <==> x in b
  {
    forall x ensures x in a <==> x in b {
      ClassMembers(le, a, x);
      ClassMembers(le, b, x);
      assert x in ClassOf(le, a, x) <==> x in ClassOf(le, b, x);
    }
  }

  /** The greatest class ends with the last element of a sorted list. */
  lemma LastOfClass<T(!new)>(le: (T, T) -> bool, s: seq<T>, x: T)
    requires TotalPreorder(le) && s != [] && Same(le, s[|s| - 1], x)
    ensures ClassOf(le, s, x) != [] && ClassOf(le, s, x)[|ClassOf(le, s, x)| - 1] == s[|s| - 1]
  {
  }

  lemma SameLast<T(!new)>(le: (T, T) -> bool, a: seq<T>, b: seq<T>)
    requires TotalPreorder(le) && Sorted(le, a) && Sorted(le, b) && SameClasses(le, a, b)
    requires a != [] && b != []
    ensures a[|a| - 1] == b[|b| - 1]
  {
    var la, lb := a[|a| - 1], b[|b| - 1];
    SameMembers(le, a, b);
    assert la in b && lb in a;
    LastIsGreatest(le, a, lb);
    LastIsGreatest(le, b, la);
    LastOfClass(le, a, la);
    LastOfClass(le, b, la);
  }

  lemma SameFronts<T(!new)>(le: (T, T) -> bool, fa: seq<T>, fb: seq<T>, last: T)
    requires SameClasses(le, fa + [last], fb + [last])
    ensures SameClasses(le, fa, fb)
  {
    forall x ensures ClassOf(le, fa, x) == ClassOf(le, fb, x) {
      assert ClassOf(le, fa + [last], x) == ClassOf(le, fb + [last], x);
      ClassOneMore(le, fa, last, x);
      ClassOneMore(le, fb, last, x);
      CancelSuffix(ClassOf(le, fa, x), ClassOf(le, fb, x), if Same(le, last, x) then [last] else []);
    }
  }

  /** A sorted list is determined by its classes. */
  lemma {:induction false} SortedIsDeterminedByClasses<T(!new)>(le: (T, T) -> bool, a: seq<T>, b: seq<T>)
    requires TotalPreorder(le) && Sorted(le, a) && Sorted(le, b)
    requires SameClasses(le, a, b)
    ensures a == b
  {
    SameMembers(le, a, b);
    assert a != [] ==> a[0] in b;
    assert b != [] ==> b[0] in a;
    if a != [] {
      SameLast(le, a, b);
      var fa, fb, last := a[..|a| - 1], b[..|b| - 1], a[|a| - 1];
      assert a == fa + [last] && b == fb + [last];
      SameFronts(le, fa, fb, last);
      SortedIsDeterminedByClasses(le, fa, fb);
    }
  }

  lemma CancelSuffix<T>(a: seq<T>, b: seq<T>, c: seq<T>)
    requires a + c == b + c
    ensures a == b
  {
    assert |a| == |b|;
    assert (a + c)[..|a|] == a && (b + c)[..|b|] == b;
  }

  /** Two lists sort to the same list exactly when every class comes in the same order in both. */
  lemma SortEqualIffClassesEqual<T(!new)>(le: (T, T) -> bool, a: seq<T>, b: seq<T>)
    requires TotalPreorder(le)
    ensures Sort(le, a) == Sort(le, b) <==> SameClasses(le, a, b)
  {
    forall x ensures ClassOf(le, Sort(le, a), x) == ClassOf(le, a, x) && ClassOf(le, Sort(le, b), x) == ClassOf(le, b, x) {
      SortKeepsClasses(le, a, x);
      SortKeepsClasses(le, b, x);
    }
    if SameClasses(le, a, b) {
      SortSorts(le, a);
      SortSorts(le, b);
      SortedIsDeterminedByClasses(le, Sort(le, a), Sort(le, b));
    }
  }

  /** The order tells all elements of the list apart. */
  ghost predicate AllApart<T>(le: (T, T) -> bool, s: seq<T>) {
    forall i, j :: 0 <= i < j < |s| ==> !Same(le, s[i], s[j])
  }

  lemma {:induction false} ClassOfApart<T(!new)>(le: (T, T) -> bool, s: seq<T>, x: T)
    requires TotalPreorder(le) && AllApart(le, s)
    ensures |ClassOf(le, s, x)| <= 1
  {
    if s != [] {
      var front, last := s[..|s| - 1], s[|s| - 1];
      ClassOfApart(le, front, x);
      ClassMembers(le, front, x);
      if Same(le, last, x) {
        NoneInClass(le, front, last, x);
      }
    }
  }

  lemma {:induction false} NoneInClass<T(!new)>(le: (T, T) -> bool, s: seq<T>, last: T, x: T)
    requires TotalPreorder(le) && Same(le, last, x)
    requires forall i :: 0 <= i < |s| ==> !Same(le, s[i], last)
    ensures ClassOf(le, s, x) == []
  {
    if s != [] {
      NoneInClass(le, s[..|s| - 1], last, x);
    }
  }

  /** With all elements apart, sorting is canonical: it forgets the order and nothing else. */
  lemma SortEqualIffSameElements<T(!new)>(le: (T, T) -> bool, a: seq<T>, b: seq<T>)
    requires TotalPreorder(le) && AllApart(le, a) && AllApart(le, b)
    ensures Sort(le, a) == Sort(le, b) <==> forall x :: x in a <==> x in b
  {
    SortEqualIffClassesEqual(le, a, b);
    if forall x :: x in a <==> x in b {
      forall x ensures ClassOf(le, a, x) == ClassOf(le, b, x) {
        ClassOfApart(le, a, x);
        ClassOfApart(le, b, x);
        ClassMembers(le, a, x);
        ClassMembers(le, b, x);
        ShortListsEqual(ClassOf(le, a, x), ClassOf(le, b, x));
      }
    }
    if SameClasses(le, a, b) {
      forall x ensures x in a <==> x in b {
        ClassMembers(le, a, x);
        ClassMembers(le, b, x);
        assert x in ClassOf(le, a, x) <==> x in ClassOf(le, b, x);
      }
    }
  }

  lemma ShortListsEqual<T>(a: seq<T>, b: seq<T>)
    requires |a| <= 1 && |b| <= 1 && forall x :: x in a <==> x in b
    ensures a == b
  {
    if a != [] {
      assert a[0] in b;
    }
    if b != [] {
      assert b[0] in a;
    }
  }
}
