/** A stable sort by a comparator, as the standard library's `sort_by`: negative puts the
    first argument first. */
module StableSort {
  type Comparator<!T(!new)> = (T, T) -> int

  predicate Compared<T(!new)>(cmp: Comparator<T>, a: T, b: T) {
    && (cmp(a, b) <= 0 || cmp(b, a) <= 0)
    && (cmp(a, b) == 0 <==> cmp(a, b) <= 0 && cmp(b, a) <= 0)
  }

  predicate Chained<T(!new)>(cmp: Comparator<T>, a: T, b: T, c: T) {
    cmp(a, b) <= 0 && cmp(b, c) <= 0 ==> cmp(a, c) <= 0
  }

  ghost predicate IsPreorder<T(!new)>(cmp: Comparator<T>) {
    (forall a, b :: Compared(cmp, a, b)) && (forall a, b, c :: Chained(cmp, a, b, c))
  }

  ghost predicate IsSorted<T(!new)>(cmp: Comparator<T>, s: seq<T>) {
    forall i, j :: 0 <= i < j < |s| ==> cmp(s[i], s[j]) <= 0
  }

  /** `x` goes after every element it does not strictly precede. */
  function Inserted<T(!new)>(cmp: Comparator<T>, s: seq<T>, x: T): seq<T> {
    if s == [] || cmp(s[|s| - 1], x) <= 0 then s + [x]
    else Inserted(cmp, s[..|s| - 1], x) + [s[|s| - 1]]
  }

  function SortedBy<T(!new)>(cmp: Comparator<T>, s: seq<T>): seq<T> {
    if s == [] then [] else Inserted(cmp, SortedBy(cmp, s[..|s| - 1]), s[|s| - 1])
  }

  /** The elements that compare equal to `k`, in order. */
  function Class<T(!new)>(cmp: Comparator<T>, k: T, s: seq<T>): seq<T> {
    if s == [] then []
    else Class(cmp, k, s[..|s| - 1]) + (if cmp(s[|s| - 1], k) == 0 then [s[|s| - 1]] else [])
  }

  lemma {:induction false} InsertedSorts<T(!new)>(cmp: Comparator<T>, s: seq<T>, x: T)
    requires IsPreorder(cmp) && IsSorted(cmp, s)
    ensures IsSorted(cmp, Inserted(cmp, s, x))
    ensures multiset(Inserted(cmp, s, x)) == multiset(s) + multiset{x}
  {
    if s != [] {
      var rest, last := s[..|s| - 1], s[|s| - 1];
      assert s == rest + [last];
      assert Compared(cmp, last, x);
      if cmp(last, x) > 0 {
        InsertedSorts(cmp, rest, x);
        var t := Inserted(cmp, rest, x);
        forall i | 0 <= i < |t|
          ensures cmp(t[i], last) <= 0
        {
          assert t[i] in multiset(t);
          if t[i] != x {
            var j :| 0 <= j < |rest| && rest[j] == t[i];
            assert cmp(s[j], s[|s| - 1]) <= 0;
          }
        }
      } else {
        forall i | 0 <= i < |rest|
          ensures cmp(s[i], x) <= 0
        {
          assert Chained(cmp, s[i], last, x);
        }
      }
    }
  }

  lemma {:induction false} SortedBySorts<T(!new)>(cmp: Comparator<T>, s: seq<T>)
    requires IsPreorder(cmp)
    ensures IsSorted(cmp, SortedBy(cmp, s))
    ensures multiset(SortedBy(cmp, s)) == multiset(s)
  {
    if s != [] {
      SortedBySorts(cmp, s[..|s| - 1]);
      InsertedSorts(cmp, SortedBy(cmp, s[..|s| - 1]), s[|s| - 1]);
      assert s == s[..|s| - 1] + [s[|s| - 1]];
    }
  }

  lemma {:induction false} ClassOfConcat<T(!new)>(cmp: Comparator<T>, k: T, a: seq<T>, b: seq<T>)
    ensures Class(cmp, k, a + b) == Class(cmp, k, a) + Class(cmp, k, b)
  {
    if b == [] {
      assert a + b == a;
    } else {
      assert (a + b)[..|a + b| - 1] == a + b[..|b| - 1];
      ClassOfConcat(cmp, k, a, b[..|b| - 1]);
    }
  }

  lemma {:induction false} InsertedIsStable<T(!new)>(cmp: Comparator<T>, k: T, s: seq<T>, x: T)
    requires IsPreorder(cmp)
    ensures Class(cmp, k, Inserted(cmp, s, x)) == Class(cmp, k, s + [x])
  {
    if s != [] && cmp(s[|s| - 1], x) > 0 {
      var rest, last := s[..|s| - 1], s[|s| - 1];
      InsertedIsStable(cmp, k, rest, x);
      ClassOfConcat(cmp, k, Inserted(cmp, rest, x), [last]);
      ClassOfConcat(cmp, k, rest, [x]);
      ClassOfConcat(cmp, k, s, [x]);
      ClassOfConcat(cmp, k, rest, [last]);
      assert rest + [last] == s;
      assert !(cmp(x, k) == 0 && cmp(last, k) == 0) by {
        assert Compared(cmp, x, k) && Compared(cmp, last, k);
        assert Chained(cmp, last, k, x);
      }
      NeverBoth(Class(cmp, k, rest), Class(cmp, k, [x]), Class(cmp, k, [last]));
    }
  }

  lemma NeverBoth<T>(a: seq<T>, b: seq<T>, c: seq<T>)
    requires b == [] || c == []
    ensures a + b + c == a + c + b
  {
  }

  /** The sort keeps the order of elements that compare equal. */
  lemma {:induction false} SortIsStable<T(!new)>(cmp: Comparator<T>, k: T, s: seq<T>)
    requires IsPreorder(cmp)
    ensures Class(cmp, k, SortedBy(cmp, s)) == Class(cmp, k, s)
  {
    if s != [] {
      var rest, last := s[..|s| - 1], s[|s| - 1];
      var sorted := SortedBy(cmp, rest);
      calc {
        Class(cmp, k, SortedBy(cmp, s));
      ==
        Class(cmp, k, Inserted(cmp, sorted, last));
      == { InsertedIsStable(cmp, k, sorted, last); }
        Class(cmp, k, sorted + [last]);
      == { ClassOfConcat(cmp, k, sorted, [last]); }
        Class(cmp, k, sorted) + Class(cmp, k, [last]);
      == { SortIsStable(cmp, k, rest); }
        Class(cmp, k, rest) + Class(cmp, k, [last]);
      == { ClassOfConcat(cmp, k, rest, [last]); assert rest + [last] == s; }
        Class(cmp, k, s);
      }
    }
  }

  lemma {:induction false} ClassMembers<T(!new)>(cmp: Comparator<T>, k: T, s: seq<T>)
    ensures forall x :: x in Class(cmp, k, s) <==> x in s && cmp(x, k) == 0
  {
    if s != [] {
      ClassMembers(cmp, k, s[..|s| - 1]);
      assert s == s[..|s| - 1] + [s[|s| - 1]];
    }
  }

  lemma LastIsLast<T(!new)>(cmp: Comparator<T>, s: seq<T>, x: T)
    requires IsPreorder(cmp) && IsSorted(cmp, s) && x in s
    ensures cmp(x, s[|s| - 1]) <= 0
  {
    var i :| 0 <= i < |s| && s[i] == x;
    assert Compared(cmp, x, x);
    assert i < |s| - 1 ==> cmp(s[i], s[|s| - 1]) <= 0;
  }

  lemma LastOfClass<T(!new)>(cmp: Comparator<T>, k: T, s: seq<T>)
    requires s != [] && cmp(s[|s| - 1], k) == 0
    ensures Class(cmp, k, s) != [] && Class(cmp, k, s)[|Class(cmp, k, s)| - 1] == s[|s| - 1]
  {
  }

  lemma OneLess<T>(a: seq<T>, b: seq<T>, last: seq<T>)
    requires a + last == b + last
    ensures a == b
  {
    assert a == (a + last)[..|a + last| - |last|];
    assert b == (b + last)[..|b + last| - |last|];
  }

  ghost predicate SameClasses<T(!new)>(cmp: Comparator<T>, a: seq<T>, b: seq<T>) {
    forall k :: Class(cmp, k, a) == Class(cmp, k, b)
  }

  lemma SameMembers<T(!new)>(cmp: Comparator<T>, a: seq<T>, b: seq<T>, x: T)
    requires IsPreorder(cmp) && SameClasses(cmp, a, b) && x in a
    ensures x in b
  {
    ClassMembers(cmp, x, a);
    ClassMembers(cmp, x, b);
    assert Compared(cmp, x, x);
    assert Class(cmp, x, a) == Class(cmp, x, b);
    assert x in Class(cmp, x, a);
  }

  lemma LastsAgree<T(!new)>(cmp: Comparator<T>, a: seq<T>, b: seq<T>)
    requires IsPreorder(cmp) && IsSorted(cmp, a) && IsSorted(cmp, b) && SameClasses(cmp, a, b)
    requires a != [] && b != []
    ensures a[|a| - 1] == b[|b| - 1]
  {
    var x, y := a[|a| - 1], b[|b| - 1];
    SameMembers(cmp, a, b, x);
    SameMembers(cmp, b, a, y);
    LastIsLast(cmp, a, y);
    LastIsLast(cmp, b, x);
    assert Compared(cmp, y, x) && Compared(cmp, x, x);
    LastOfClass(cmp, x, a);
    LastOfClass(cmp, x, b);
    assert Class(cmp, x, a) == Class(cmp, x, b);
  }

  lemma RestsAgree<T(!new)>(cmp: Comparator<T>, a: seq<T>, b: seq<T>, x: T)
    requires SameClasses(cmp, a + [x], b + [x])
    ensures SameClasses(cmp, a, b)
  {
    forall k
      ensures Class(cmp, k, a) == Class(cmp, k, b)
    {
      ClassOfConcat(cmp, k, a, [x]);
      ClassOfConcat(cmp, k, b, [x]);
      assert Class(cmp, k, a + [x]) == Class(cmp, k, b + [x]);
      OneLess(Class(cmp, k, a), Class(cmp, k, b), Class(cmp, k, [x]));
    }
  }

  /** A sorted sequence is determined by its classes. */
  lemma {:induction false} SortedIsUnique<T(!new)>(cmp: Comparator<T>, a: seq<T>, b: seq<T>)
    requires IsPreorder(cmp) && IsSorted(cmp, a) && IsSorted(cmp, b) && SameClasses(cmp, a, b)
    ensures a == b
  {
    if a != [] {
      SameMembers(cmp, a, b, a[0]);
      LastsAgree(cmp, a, b);
      var x := a[|a| - 1];
      var ra, rb := a[..|a| - 1], b[..|b| - 1];
      assert a == ra + [x] && b == rb + [x];
      RestsAgree(cmp, ra, rb, x);
      SortedIsUnique(cmp, ra, rb);
    } else if b != [] {
      SameMembers(cmp, b, a, b[0]);
    }
  }

  /** Two sequences with the same classes sort to the same sequence. */
  lemma SameClassesSortAlike<T(!new)>(cmp: Comparator<T>, a: seq<T>, b: seq<T>)
    requires IsPreorder(cmp) && SameClasses(cmp, a, b)
    ensures SortedBy(cmp, a) == SortedBy(cmp, b)
  {
    SortedBySorts(cmp, a);
    SortedBySorts(cmp, b);
    forall k
      ensures Class(cmp, k, SortedBy(cmp, a)) == Class(cmp, k, SortedBy(cmp, b))
    {
      SortIsStable(cmp, k, a);
      SortIsStable(cmp, k, b);
    }
    SortedIsUnique(cmp, SortedBy(cmp, a), SortedBy(cmp, b));
  }
}
