/** Stable sorting by a comparison, as `Array.prototype.sort` and `list.sort` do it. */
module Sorting {

  ghost predicate TotalPreorder<T(!new)>(le: (T, T) -> bool)
  {
    && (forall x, y :: le(x, y) || le(y, x))
    && (forall x, y, z :: le(x, y) && le(y, z) ==> le(x, z))
  }

  ghost predicate Sorted<T>(xs: seq<T>, le: (T, T) -> bool)
  {
    forall i, j :: 0 <= i < j < |xs| ==> le(xs[i], xs[j])
  }

  /** Distinct members never tie. */
  ghost predicate NoTies<T(!new)>(xs: seq<T>, le: (T, T) -> bool)
  {
    forall x, y :: x in xs && y in xs && le(x, y) && le(y, x) ==> x == y
  }

  function Insert<T>(x: T, xs: seq<T>, le: (T, T) -> bool): seq<T>
  {
    if xs == [] || le(x, xs[0]) then [x] + xs
    else [xs[0]] + Insert(x, xs[1..], le)
  }

  /** The stable sort of `xs`: equal elements keep their order. */
  function Sort<T>(xs: seq<T>, le: (T, T) -> bool): seq<T>
  {
    if xs == [] then [] else Insert(xs[0], Sort(xs[1..], le), le)
  }

  lemma {:induction false} InsertPermutes<T>(x: T, xs: seq<T>, le: (T, T) -> bool)
    ensures multiset(Insert(x, xs, le)) == multiset{x} + multiset(xs)
  {
    if xs == [] || le(x, xs[0]) {
    } else {
      assert xs == [xs[0]] + xs[1..];
      InsertPermutes(x, xs[1..], le);
    }
  }

  lemma {:induction false} SortPermutes<T>(xs: seq<T>, le: (T, T) -> bool)
    ensures multiset(Sort(xs, le)) == multiset(xs)
    ensures |Sort(xs, le)| == |xs|
  {
    if xs == [] {
    } else {
      assert xs == [xs[0]] + xs[1..];
      SortPermutes(xs[1..], le);
      InsertPermutes(xs[0], Sort(xs[1..], le), le);
    }
    assert |multiset(Sort(xs, le))| == |multiset(xs)|;
  }

  /** Membership survives sorting. */
  lemma {:induction false} SortMembers<T>(xs: seq<T>, le: (T, T) -> bool)
    ensures forall x :: x in Sort(xs, le) <==> x in xs
  {
    SortPermutes(xs, le);
    forall x ensures x in Sort(xs, le) <==> x in xs {
      assert x in Sort(xs, le) <==> x in multiset(Sort(xs, le));
      assert x in xs <==> x in multiset(xs);
    }
  }

  lemma {:induction false} InsertSorts<T(!new)>(x: T, xs: seq<T>, le: (T, T) -> bool)
    requires TotalPreorder(le) && Sorted(xs, le)
    ensures Sorted(Insert(x, xs, le), le)
  {
    if xs == [] || le(x, xs[0]) {
      forall j | 0 <= j < |xs| ensures le(x, xs[j]) {
        assert j == 0 || le(xs[0], xs[j]);
      }
    } else {
      InsertSorts(x, xs[1..], le);
      InsertPermutes(x, xs[1..], le);
      var rest := Insert(x, xs[1..], le);
      forall j | 0 <= j < |rest| ensures le(xs[0], rest[j]) {
        assert rest[j] in multiset(rest);
        if rest[j] != x {
          assert rest[j] in xs[1..];
        }
      }
    }
  }

  lemma {:induction false} SortSorts<T(!new)>(xs: seq<T>, le: (T, T) -> bool)
    requires TotalPreorder(le)
    ensures Sorted(Sort(xs, le), le)
  {
    if xs == [] {
    } else {
      SortSorts(xs[1..], le);
      InsertSorts(xs[0], Sort(xs[1..], le), le);
    }
  }

  lemma {:induction false} SortedHeadsAgree<T(!new)>(a: seq<T>, b: seq<T>, le: (T, T) -> bool)
    requires Sorted(a, le) && Sorted(b, le) && NoTies(a, le)
    requires a != [] && b != [] && a[0] in b && b[0] in a
    ensures a[0] == b[0]
  {
    var i :| 0 <= i < |a| && a[i] == b[0];
    var j :| 0 <= j < |b| && b[j] == a[0];
    if i != 0 && j != 0 {
      assert le(a[0], a[i]) && le(b[0], b[j]);
    }
  }

  lemma {:induction false} TailSorted<T(!new)>(a: seq<T>, le: (T, T) -> bool)
    requires a != [] && Sorted(a, le) && NoTies(a, le)
    ensures Sorted(a[1..], le) && NoTies(a[1..], le)
    ensures multiset(a[1..]) == multiset(a) - multiset{a[0]}
  {
    var t := a[1..];
    assert a == [a[0]] + t;
    forall i, j | 0 <= i < j < |t| ensures le(t[i], t[j]) {
      assert t[i] == a[i + 1] && t[j] == a[j + 1];
    }
    forall x, y | x in t && y in t && le(x, y) && le(y, x) ensures x == y {
      assert x in a && y in a;
    }
  }

  /** A sorted arrangement without ties is unique. */
  lemma {:induction false} SortedUnique<T(!new)>(a: seq<T>, b: seq<T>, le: (T, T) -> bool)
    requires Sorted(a, le) && Sorted(b, le) && NoTies(a, le)
    requires multiset(a) == multiset(b)
    ensures a == b
  {
    assert |multiset(a)| == |a| && |multiset(b)| == |b|;
    if a == [] {
    } else {
      assert b[0] in multiset(a) && a[0] in multiset(b);
      SortedHeadsAgree(a, b, le);
      assert NoTies(b, le) by {
        forall x, y | x in b && y in b && le(x, y) && le(y, x) ensures x == y {
          assert x in multiset(a) && y in multiset(a);
        }
      }
      TailSorted(a, le);
      TailSorted(b, le);
      SortedUnique(a[1..], b[1..], le);
    }
  }

  /** Rearranging a list without ties does not change its sorted form. */
  lemma {:induction false} SortIgnoresOrder<T(!new)>(a: seq<T>, b: seq<T>, le: (T, T) -> bool)
    requires TotalPreorder(le) && NoTies(a, le)
    requires multiset(a) == multiset(b)
    ensures Sort(a, le) == Sort(b, le)
  {
    SortPermutes(a, le);
    SortPermutes(b, le);
    SortSorts(a, le);
    SortSorts(b, le);
    SortMembers(a, le);
    SortedUnique(Sort(a, le), Sort(b, le), le);
  }

  function Filter<T>(xs: seq<T>, p: T -> bool): seq<T>
  {
    if xs == [] then [] else (if p(xs[0]) then [xs[0]] else []) + Filter(xs[1..], p)
  }

  lemma {:induction false} FilterAppend<T>(a: seq<T>, b: seq<T>, p: T -> bool)
    ensures Filter(a + b, p) == Filter(a, p) + Filter(b, p)
  {
    if a == [] {
      assert a + b == b;
    } else {
      FilterAppend(a[1..], b, p);
      FilterFirst(a + b, a[0], a[1..] + b, p);
      FilterFirst(a, a[0], a[1..], p);
      var first := if p(a[0]) then [a[0]] else [];
      assert first + (Filter(a[1..], p) + Filter(b, p)) == (first + Filter(a[1..], p)) + Filter(b, p);
    }
  }

  lemma {:induction false} FilterFirst<T>(xs: seq<T>, x: T, rest: seq<T>, p: T -> bool)
    requires xs == [x] + rest
    ensures Filter(xs, p) == (if p(x) then [x] else []) + Filter(rest, p)
  {
    assert xs[1..] == rest;
  }

  lemma {:induction false} FilterMember<T>(xs: seq<T>, p: T -> bool, x: T)
    ensures x in Filter(xs, p) <==> x in xs && p(x)
  {
    if xs == [] {
    } else {
      FilterMember(xs[1..], p, x);
      assert xs == [xs[0]] + xs[1..];
    }
  }

  lemma {:induction false} FilterAll<T>(xs: seq<T>, p: T -> bool)
    requires forall x :: x in xs ==> p(x)
    ensures Filter(xs, p) == xs
  {
    if xs == [] {
    } else {
      FilterAll(xs[1..], p);
    }
  }

  lemma {:induction false} FilterNone<T>(xs: seq<T>, p: T -> bool)
    requires forall x :: x in xs ==> !p(x)
    ensures Filter(xs, p) == []
  {
    if xs == [] {
    } else {
      FilterNone(xs[1..], p);
    }
  }

  /** Sorting a sorted list changes nothing. */
  lemma {:induction false} SortedIsFixed<T>(xs: seq<T>, le: (T, T) -> bool)
    requires Sorted(xs, le)
    ensures Sort(xs, le) == xs
  {
    if xs == [] {
    } else {
      var t := xs[1..];
      forall i, j | 0 <= i < j < |t| ensures le(t[i], t[j]) {
        assert t[i] == xs[i + 1] && t[j] == xs[j + 1];
      }
      SortedIsFixed(t, le);
      assert t != [] ==> le(xs[0], xs[1]);
    }
  }

  /** Elements that tie with `y`. */
  function TiesWith<T>(y: T, le: (T, T) -> bool): T -> bool { x => le(x, y) && le(y, x) }

  lemma {:induction false} InsertIsStable<T(!new)>(x: T, xs: seq<T>, le: (T, T) -> bool, y: T)
    requires TotalPreorder(le)
    ensures Filter(Insert(x, xs, le), TiesWith(y, le)) == Filter([x] + xs, TiesWith(y, le))
  {
    var p := TiesWith(y, le);
    assert ([x] + xs)[1..] == xs;
    if xs == [] || le(x, xs[0]) {
    } else {
      InsertIsStable(x, xs[1..], le, y);
      assert ([x] + xs[1..])[1..] == xs[1..];
      assert !(p(x) && p(xs[0]));
    }
  }

  /** The sort is stable: elements that tie keep their order. */
  lemma {:induction false} SortIsStable<T(!new)>(xs: seq<T>, le: (T, T) -> bool, y: T)
    requires TotalPreorder(le)
    ensures Filter(Sort(xs, le), TiesWith(y, le)) == Filter(xs, TiesWith(y, le))
  {
    if xs == [] {
    } else {
      var rest := Sort(xs[1..], le);
      SortIsStable(xs[1..], le, y);
      InsertIsStable(xs[0], rest, le, y);
      assert ([xs[0]] + rest)[1..] == rest;
    }
  }

  ghost predicate NoDuplicates<T>(a: seq<T>)
  {
    forall i, j :: 0 <= i < j < |a| ==> a[i] != a[j]
  }

  lemma {:induction false} NoDuplicatesCount<T>(a: seq<T>, x: T)
    requires NoDuplicates(a)
    ensures multiset(a)[x] == if x in a then 1 else 0
  {
    if a == [] {
    } else {
      assert a == [a[0]] + a[1..];
      NoDuplicatesCount(a[1..], x);
    }
  }

  /** Two duplicate-free lists with the same members are rearrangements of each other. */
  lemma {:induction false} SameMembersPermute<T>(a: seq<T>, b: seq<T>)
    requires NoDuplicates(a) && NoDuplicates(b)
    requires forall x :: x in a <==> x in b
    ensures multiset(a) == multiset(b)
  {
    forall x ensures multiset(a)[x] == multiset(b)[x] {
      NoDuplicatesCount(a, x);
      NoDuplicatesCount(b, x);
    }
  }
}
