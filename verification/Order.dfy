/** The byte-lexicographic order on strings and sorting by it. */
module Order {
  /** `str` comparison, by characters; `ByteOrder` shows that comparing the encoded bytes is the same. */
  predicate Le(a: string, b: string) {
    a == [] || (b != [] && (a[0] < b[0] || (a[0] == b[0] && Le(a[1..], b[1..]))))
  }

  lemma {:induction false} LeTotal(a: string, b: string)
    ensures Le(a, b) || Le(b, a)
  {
    if a != [] && b != [] {
      LeTotal(a[1..], b[1..]);
    }
  }

  lemma {:induction false} LeAntisymmetric(a: string, b: string)
    requires Le(a, b) && Le(b, a)
    ensures a == b
  {
    if a == [] {
    } else {
      LeAntisymmetric(a[1..], b[1..]);
      assert a == [a[0]] + a[1..] && b == [b[0]] + b[1..];
    }
  }

  lemma {:induction false} LeTransitive(a: string, b: string, c: string)
    requires Le(a, b) && Le(b, c)
    ensures Le(a, c)
  {
    if a != [] && a[0] == b[0] == c[0] {
      LeTransitive(a[1..], b[1..], c[1..]);
    }
  }

  ghost predicate Sorted(xs: seq<string>) {
    forall i, j | 0 <= i < j < |xs| :: Le(xs[i], xs[j])
  }

  ghost predicate NoDup<T>(xs: seq<T>) {
    forall i, j | 0 <= i < j < |xs| :: xs[i] != xs[j]
  }

  function Elements<T>(xs: seq<T>): set<T> {
    set x | x in xs
  }

  lemma SubsetSize<T>(a: set<T>, b: set<T>)
    requires a <= b
    ensures |a| <= |b|
  {
    assert b == a + (b - a);
  }

  function Insert(x: string, ys: seq<string>): seq<string> {
    if ys == [] || Le(x, ys[0]) then [x] + ys else [ys[0]] + Insert(x, ys[1..])
  }

  /** `slice::sort` on strings. */
  function Sort(xs: seq<string>): seq<string> {
    if xs == [] then [] else Insert(xs[0], Sort(xs[1..]))
  }

  lemma {:induction false} InsertKeepsSorted(x: string, ys: seq<string>)
    requires Sorted(ys)
    ensures Sorted(Insert(x, ys))
    ensures multiset(Insert(x, ys)) == multiset{x} + multiset(ys)
  {
    if ys == [] {
    } else if Le(x, ys[0]) {
      forall j | 0 <= j < |ys| ensures Le(x, ys[j]) {
        if j > 0 {
          LeTransitive(x, ys[0], ys[j]);
        }
      }
    } else {
      assert ys == [ys[0]] + ys[1..];
      InsertKeepsSorted(x, ys[1..]);
      LeTotal(x, ys[0]);
      var rest := Insert(x, ys[1..]);
      forall j | 0 <= j < |rest| ensures Le(ys[0], rest[j]) {
        assert rest[j] in multiset(rest);
        assert rest[j] == x || rest[j] in ys[1..];
      }
    }
  }

  lemma {:induction false} SortSorts(xs: seq<string>)
    ensures Sorted(Sort(xs)) && multiset(Sort(xs)) == multiset(xs)
  {
    if xs == [] {
    } else {
      SortSorts(xs[1..]);
      InsertKeepsSorted(xs[0], Sort(xs[1..]));
      assert xs == [xs[0]] + xs[1..];
    }
  }

  lemma {:induction false} CountAtMostOnce<T>(xs: seq<T>, x: T)
    requires NoDup(xs)
    ensures multiset(xs)[x] == if x in xs then 1 else 0
  {
    if xs == [] {
    } else {
      assert xs == xs[..|xs| - 1] + [xs[|xs| - 1]];
      CountAtMostOnce(xs[..|xs| - 1], x);
    }
  }

  lemma CountAtLeastTwo<T>(xs: seq<T>, i: nat, j: nat)
    requires i < j < |xs| && xs[i] == xs[j]
    ensures multiset(xs)[xs[j]] >= 2
  {
    assert xs == xs[..j] + [xs[j]] + xs[j + 1..];
    assert xs[i] in xs[..j];
  }

  lemma NoDupSort(xs: seq<string>)
    requires NoDup(xs)
    ensures NoDup(Sort(xs))
  {
    SortSorts(xs);
    var ys := Sort(xs);
    forall i, j | 0 <= i < j < |ys| ensures ys[i] != ys[j] {
      if ys[i] == ys[j] {
        CountAtLeastTwo(ys, i, j);
        CountAtMostOnce(xs, ys[j]);
      }
    }
  }

  /** Sorting forgets the order the elements came in: only which they are matters. */
  lemma {:induction false} SortedUnique(xs: seq<string>, ys: seq<string>)
    requires Sorted(xs) && NoDup(xs) && Sorted(ys) && NoDup(ys)
    requires forall x :: x in xs <==> x in ys
    ensures xs == ys
  {
    assert ys != [] ==> ys[0] in ys;
    if xs == [] {
    } else {
      assert xs[0] in xs;
      if xs[0] != ys[0] {
        LeAntisymmetric(xs[0], ys[0]);
      }
      forall x ensures x in xs[1..] <==> x in ys[1..] {
        assert x in xs <==> x == xs[0] || x in xs[1..];
        assert x in ys <==> x == ys[0] || x in ys[1..];
      }
      SortedUnique(xs[1..], ys[1..]);
      assert xs == [xs[0]] + xs[1..] && ys == [ys[0]] + ys[1..];
    }
  }

  lemma {:induction false} LeastExists(ids: set<string>)
    requires ids != {}
    ensures exists m :: m in ids && forall x | x in ids :: Le(m, x)
  {
    hide Le;
    var y :| y in ids;
    var rest := ids - {y};
    LeTotal(y, y);
    if rest == {} {
      assert ids == {y};
      assert forall x | x in ids :: Le(y, x);
    } else {
      LeastExists(rest);
      var m :| m in rest && forall x | x in rest :: Le(m, x);
      LeTotal(m, y);
      var least := if Le(m, y) then m else y;
      forall x | x in ids ensures Le(least, x) {
        if x != y && least == y {
          LeTransitive(y, m, x);
        }
      }
    }
  }

  /** The elements of a set in string order. */
  ghost function SortedIds(ids: set<string>): (r: seq<string>)
    ensures Sorted(r) && NoDup(r) && |r| == |ids|
    ensures forall x :: x in r <==> x in ids
  {
    if ids == {} then []
    else
      LeastExists(ids);
      var m :| m in ids && forall x | x in ids :: Le(m, x);
      [m] + SortedIds(ids - {m})
  }

  /** A hash map or hash set iterated in an arbitrary order. */
  method Enumerate<T(==)>(s: set<T>) returns (xs: seq<T>)
    ensures NoDup(xs) && |xs| == |s|
    ensures forall x :: x in xs <==> x in s
  {
    xs := [];
    var rest := s;
    while rest != {}
      invariant rest <= s && |xs| + |rest| == |s|
      invariant NoDup(xs)
      invariant forall x :: x in xs <==> x in s && x !in rest
      decreases rest
    {
      var x :| x in rest;
      rest := rest - {x};
      xs := xs + [x];
    }
  }

  /** Collecting a hash set and sorting it always gives the same sequence. */
  method CollectSorted(s: set<string>) returns (xs: seq<string>)
    ensures xs == SortedIds(s)
  {
    var items := Enumerate(s);
    xs := Sort(items);
    SortSorts(items);
    NoDupSort(items);
    forall x ensures x in xs <==> x in s {
      assert x in xs <==> x in multiset(xs);
      assert x in items <==> x in multiset(items);
    }
    SortedUnique(xs, SortedIds(s));
  }
}
