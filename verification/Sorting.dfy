/** The stable sort behind every ordered query and every `Array.prototype.sort` of the model. */
module Sorting {

  ghost predicate TotalPreorder<T(!new)>(leq: (T, T) -> bool) {
    && (forall a, b :: leq(a, b) || leq(b, a))
    && (forall a, b, c :: leq(a, b) && leq(b, c) ==> leq(a, c))
  }

  ghost predicate SortedBy<T>(xs: seq<T>, leq: (T, T) -> bool) {
    forall i, j | 0 <= i < j < |xs| :: leq(xs[i], xs[j])
  }

  function Insert<T>(x: T, xs: seq<T>, leq: (T, T) -> bool): (r: seq<T>)
    ensures multiset(r) == multiset(xs) + multiset{x}
  {
    if xs == [] || leq(x, xs[0]) then [x] + xs
    else
      assert xs == [xs[0]] + xs[1..];
      [xs[0]] + Insert(x, xs[1..], leq)
  }

  function Sort<T>(xs: seq<T>, leq: (T, T) -> bool): (r: seq<T>)
    ensures multiset(r) == multiset(xs)
  {
    if xs == [] then []
    else
      assert xs == [xs[0]] + xs[1..];
      Insert(xs[0], Sort(xs[1..], leq), leq)
  }

  lemma {:induction false} InsertIsSorted<T(!new)>(x: T, xs: seq<T>, leq: (T, T) -> bool)
    requires TotalPreorder(leq) && SortedBy(xs, leq)
    ensures SortedBy(Insert(x, xs, leq), leq)
  {
    if xs != [] && !leq(x, xs[0]) {
      var rest := Insert(x, xs[1..], leq);
      InsertIsSorted(x, xs[1..], leq);
      forall j | 0 <= j < |rest|
        ensures leq(xs[0], rest[j])
      {
        assert rest[j] in multiset(rest);
        assert rest[j] == x || rest[j] in xs[1..];
      }
    }
  }

  lemma {:induction false} SortIsSorted<T(!new)>(xs: seq<T>, leq: (T, T) -> bool)
    requires TotalPreorder(leq)
    ensures SortedBy(Sort(xs, leq), leq)
  {
    if xs != [] {
      SortIsSorted(xs[1..], leq);
      InsertIsSorted(xs[0], Sort(xs[1..], leq), leq);
    }
  }

  /** Where no two different elements tie, there is only one way to put a collection in order. */
  lemma {:induction false} OrderIsUnique<T>(xs: seq<T>, ys: seq<T>, leq: (T, T) -> bool)
    requires SortedBy(xs, leq) && SortedBy(ys, leq) && multiset(xs) == multiset(ys)
    requires forall a, b | a in xs && b in xs && leq(a, b) && leq(b, a) :: a == b
    ensures xs == ys
  {
    if xs == [] {
      assert |multiset(ys)| == 0;
    } else {
      FirstIsShared(xs, ys, leq);
      TailsShareMultiset(xs, ys);
      OrderIsUnique(xs[1..], ys[1..], leq);
    }
  }

  lemma FirstIsShared<T>(xs: seq<T>, ys: seq<T>, leq: (T, T) -> bool)
    requires SortedBy(xs, leq) && SortedBy(ys, leq) && multiset(xs) == multiset(ys) && xs != []
    requires forall a, b | a in xs && b in xs && leq(a, b) && leq(b, a) :: a == b
    ensures ys != [] && xs[0] == ys[0]
  {
    assert xs[0] in multiset(ys);
    assert ys[0] in multiset(xs);
    SmallestFirst(xs, ys[0], leq);
    SmallestFirst(ys, xs[0], leq);
  }

  lemma TailsShareMultiset<T>(xs: seq<T>, ys: seq<T>)
    requires multiset(xs) == multiset(ys) && xs != [] && ys != [] && xs[0] == ys[0]
    ensures multiset(xs[1..]) == multiset(ys[1..])
  {
    assert xs == [xs[0]] + xs[1..];
    assert ys == [ys[0]] + ys[1..];
    assert multiset(xs[1..]) == multiset(xs) - multiset{xs[0]};
    assert multiset(ys[1..]) == multiset(ys) - multiset{ys[0]};
  }

  lemma SmallestFirst<T>(xs: seq<T>, y: T, leq: (T, T) -> bool)
    requires SortedBy(xs, leq) && y in xs
    ensures xs[0] == y || leq(xs[0], y)
  {
    var k :| 0 <= k < |xs| && xs[k] == y;
  }

  /** Rows a WHERE clause keeps, in table order. */
  function Filter<T(!new)>(xs: seq<T>, keep: T -> bool): (r: seq<T>)
    ensures forall x :: x in r <==> x in xs && keep(x)
    ensures |r| <= |xs|
  {
    if xs == [] then []
    else if keep(xs[0]) then [xs[0]] + Filter(xs[1..], keep) else Filter(xs[1..], keep)
  }

  ghost predicate Distinct<T>(xs: seq<T>) {
    forall i, j | 0 <= i < j < |xs| :: xs[i] != xs[j]
  }

  lemma DistinctAppend<T>(xs: seq<T>, x: T)
    requires Distinct(xs) && x !in xs
    ensures Distinct(xs + [x])
  {
  }

  lemma {:induction false} FilterDistinct<T(!new)>(xs: seq<T>, keep: T -> bool)
    requires Distinct(xs)
    ensures Distinct(Filter(xs, keep))
  {
    if xs != [] {
      FilterDistinct(xs[1..], keep);
    }
  }

  lemma {:induction false} DistinctCount<T>(xs: seq<T>, x: T)
    requires Distinct(xs)
    ensures multiset(xs)[x] == if x in xs then 1 else 0
  {
    if xs != [] {
      assert xs == [xs[0]] + xs[1..];
      DistinctCount(xs[1..], x);
    }
  }

  lemma SameMembersSameMultiset<T(!new)>(xs: seq<T>, ys: seq<T>)
    requires Distinct(xs) && Distinct(ys) && forall x :: x in xs <==> x in ys
    ensures multiset(xs) == multiset(ys)
  {
    forall x
      ensures multiset(xs)[x] == multiset(ys)[x]
    {
      DistinctCount(xs, x);
      DistinctCount(ys, x);
    }
  }

  function Members<T(==)>(xs: seq<T>): set<T> {
    set x | x in xs
  }

  /** A list has as many members as entries exactly when no entry repeats. */
  lemma {:induction false} DistinctSize<T>(xs: seq<T>)
    ensures |Members(xs)| <= |xs|
    ensures |Members(xs)| == |xs| <==> Distinct(xs)
  {
    if xs != [] {
      var rest := xs[1..];
      DistinctSize(rest);
      assert Members(xs) == Members(rest) + {xs[0]};
      if xs[0] in rest {
        assert Members(xs) == Members(rest);
      }
    }
  }

  lemma {:induction false} SubsetSize<T>(a: set<T>, b: set<T>)
    requires a <= b
    ensures |a| <= |b|
    ensures |a| == |b| ==> a == b
  {
    if a != {} {
      var x :| x in a;
      SubsetSize(a - {x}, b - {x});
    }
  }

  /** Listing every member of a set with no room to spare lists each exactly once, and nothing else. */
  lemma ListsAllOnce<T>(xs: seq<T>, members: set<T>)
    requires (forall x | x in members :: x in xs) && |xs| == |members|
    ensures Distinct(xs) && members == Members(xs)
  {
    assert members <= Members(xs);
    SubsetSize(members, Members(xs));
    DistinctSize(xs);
  }

  /** Where a list's first element stands in a rearrangement of it, and what is left without it. */
  lemma FirstFound<T>(xs: seq<T>, ys: seq<T>) returns (k: nat)
    requires multiset(xs) == multiset(ys) && xs != []
    ensures k < |ys| && ys[k] == xs[0] && ys == ys[..k] + ([xs[0]] + ys[k + 1..])
    ensures multiset(xs[1..]) == multiset(ys[..k] + ys[k + 1..])
  {
    assert xs[0] in multiset(ys);
    k :| 0 <= k < |ys| && ys[k] == xs[0];
    var front, back := ys[..k], ys[k + 1..];
    assert ys == front + ([xs[0]] + back);
    assert multiset(ys) == multiset(front) + (multiset{xs[0]} + multiset(back));
    assert xs == [xs[0]] + xs[1..];
    assert multiset(xs[1..]) == multiset(xs) - multiset{xs[0]};
    assert multiset(front + back) == multiset(ys) - multiset{xs[0]};
  }

  lemma JoinedEitherWay<T>(a: seq<T>, b: seq<T>, c: seq<T>)
    ensures multiset(a + (b + c)) == multiset(b) + multiset(a + c)
  {
  }

  lemma DistinctReordered<T>(xs: seq<T>, ys: seq<T>)
    requires Distinct(xs) && multiset(xs) == multiset(ys)
    ensures Distinct(ys)
  {
    assert |xs| == |multiset(xs)| == |multiset(ys)| == |ys|;
    assert Members(xs) == Members(ys) by {
      forall x
        ensures x in Members(xs) <==> x in Members(ys)
      {
        assert x in xs <==> x in multiset(xs);
      }
    }
    DistinctSize(xs);
    DistinctSize(ys);
  }

  lemma InsertFront<T>(x: T, xs: seq<T>, leq: (T, T) -> bool)
    requires xs == [] || leq(x, xs[0])
    ensures Insert(x, xs, leq) == [x] + xs
  {
  }

  lemma InsertBehind<T>(x: T, first: T, rest: seq<T>, leq: (T, T) -> bool)
    requires !leq(x, first)
    ensures Insert(x, [first] + rest, leq) == [first] + Insert(x, rest, leq)
  {
    assert ([first] + rest)[1..] == rest;
  }

  lemma SortCons<T>(x: T, xs: seq<T>, leq: (T, T) -> bool)
    ensures Sort([x] + xs, leq) == Insert(x, Sort(xs, leq), leq)
  {
    assert ([x] + xs)[1..] == xs;
  }

  /** A list without one occurrence of one of its elements. */
  lemma Without<T>(xs: seq<T>, x: T) returns (rest: seq<T>)
    requires x in xs
    ensures multiset(xs) == multiset{x} + multiset(rest)
  {
    var k :| 0 <= k < |xs| && xs[k] == x;
    rest := xs[..k] + xs[k + 1..];
    assert xs == xs[..k] + ([x] + xs[k + 1..]);
    JoinedEitherWay(xs[..k], [x], xs[k + 1..]);
  }
}
