/** Stable sorting by a total preorder, and when a sort forgets the order of its input. */
module Ordering {

  ghost predicate TotalPreorder<T(!new)>(le: (T, T) -> bool) {
    && (forall x, y :: le(x, y) || le(y, x))
    && (forall x, y, z :: le(x, y) && le(y, z) ==> le(x, z))
  }

  ghost predicate Antisymmetric<T(!new)>(le: (T, T) -> bool) {
    forall x, y :: le(x, y) && le(y, x) ==> x == y
  }

  ghost predicate Sorted<T>(le: (T, T) -> bool, xs: seq<T>) {
    forall i, j | 0 <= i < j < |xs| :: le(xs[i], xs[j])
  }

  predicate Tied<T>(le: (T, T) -> bool, x: T, y: T) {
    le(x, y) && le(y, x)
  }

  /** Elements that the order does not tell apart are equal. */
  ghost predicate Separated<T>(le: (T, T) -> bool, xs: seq<T>) {
    forall i, j | 0 <= i < |xs| && 0 <= j < |xs| && Tied(le, xs[i], xs[j]) :: xs[i] == xs[j]
  }

  /** Places `x` before every element it is tied with. */
  function Insert<T>(le: (T, T) -> bool, x: T, xs: seq<T>): seq<T> {
    if xs == [] then [x]
    else if le(x, xs[0]) then [x] + xs
    else [xs[0]] + Insert(le, x, xs[1..])
  }

  /** The stable sort of JavaScript's `Array.prototype.sort`. */
  function Sort<T>(le: (T, T) -> bool, xs: seq<T>): seq<T> {
    if xs == [] then [] else Insert(le, xs[0], Sort(le, xs[1..]))
  }

  lemma {:induction false} InsertMultiset<T>(le: (T, T) -> bool, x: T, xs: seq<T>)
    ensures multiset(Insert(le, x, xs)) == multiset([x] + xs)
  {
    if xs == [] {
    } else if le(x, xs[0]) {
    } else {
      InsertMultiset(le, x, xs[1..]);
      assert xs == [xs[0]] + xs[1..];
    }
  }

  lemma {:induction false} SortMultiset<T>(le: (T, T) -> bool, xs: seq<T>)
    ensures multiset(Sort(le, xs)) == multiset(xs)
    ensures |Sort(le, xs)| == |xs|
  {
    if xs == [] {
    } else {
      SortMultiset(le, xs[1..]);
      InsertMultiset(le, xs[0], Sort(le, xs[1..]));
      assert xs == [xs[0]] + xs[1..];
    }
    assert |multiset(Sort(le, xs))| == |multiset(xs)|;
  }

  lemma {:induction false} InsertSorted<T(!new)>(le: (T, T) -> bool, x: T, xs: seq<T>)
    requires TotalPreorder(le)
    requires Sorted(le, xs)
    ensures Sorted(le, Insert(le, x, xs))
  {
    if xs == [] {
    } else if le(x, xs[0]) {
    } else {
      InsertSorted(le, x, xs[1..]);
      InsertMultiset(le, x, xs[1..]);
      var r := Insert(le, x, xs[1..]);
      forall j | 0 <= j < |r| ensures le(xs[0], r[j]) {
        assert r[j] in multiset(r);
        assert r[j] in multiset([x] + xs[1..]);
        assert r[j] in [x] + xs[1..];
      }
    }
  }

  lemma {:induction false} SortSorted<T(!new)>(le: (T, T) -> bool, xs: seq<T>)
    requires TotalPreorder(le)
    ensures Sorted(le, Sort(le, xs))
  {
    if xs == [] {
    } else {
      SortSorted(le, xs[1..]);
      InsertSorted(le, xs[0], Sort(le, xs[1..]));
    }
  }

  lemma {:induction false} SortOfSorted<T>(le: (T, T) -> bool, xs: seq<T>)
    requires Sorted(le, xs)
    ensures Sort(le, xs) == xs
  {
    if xs == [] {
    } else {
      SortOfSorted(le, xs[1..]);
    }
  }

  lemma InSort<T>(le: (T, T) -> bool, xs: seq<T>, x: T)
    ensures x in Sort(le, xs) <==> x in xs
  {
    SortMultiset(le, xs);
    assert x in Sort(le, xs) <==> x in multiset(Sort(le, xs));
  }

  lemma TailBag<T>(xs: seq<T>)
    requires xs != []
    ensures multiset(xs[1..]) == multiset(xs) - multiset{xs[0]}
  {
    assert xs == [xs[0]] + xs[1..];
  }

  lemma SameHead<T>(le: (T, T) -> bool, xs: seq<T>, ys: seq<T>)
    requires Sorted(le, xs) && Sorted(le, ys)
    requires multiset(xs) == multiset(ys) && xs != [] && ys != []
    requires Separated(le, xs)
    ensures xs[0] == ys[0]
  {
    assert ys[0] in multiset(xs) && xs[0] in multiset(ys);
    var i :| 0 <= i < |xs| && xs[i] == ys[0];
    var j :| 0 <= j < |ys| && ys[j] == xs[0];
    if i > 0 && j > 0 {
      assert Tied(le, xs[0], xs[i]);
    }
  }

  /** Two sorted arrangements of one bag are the same sequence when ties are equal. */
  lemma {:induction false} SortedUnique<T>(le: (T, T) -> bool, xs: seq<T>, ys: seq<T>)
    requires Sorted(le, xs) && Sorted(le, ys)
    requires multiset(xs) == multiset(ys)
    requires Separated(le, xs)
    ensures xs == ys
  {
    assert |multiset(xs)| == |multiset(ys)|;
    if xs == [] {
    } else {
      SameHead(le, xs, ys);
      TailBag(xs);
      TailBag(ys);
      SortedUnique(le, xs[1..], ys[1..]);
      assert xs == [xs[0]] + xs[1..] && ys == [ys[0]] + ys[1..];
    }
  }

  lemma SeparatedBag<T>(le: (T, T) -> bool, xs: seq<T>, ys: seq<T>)
    requires multiset(xs) == multiset(ys)
    requires Separated(le, xs)
    ensures Separated(le, ys)
  {
    forall i, j | 0 <= i < |ys| && 0 <= j < |ys| && Tied(le, ys[i], ys[j]) ensures ys[i] == ys[j] {
      assert ys[i] in multiset(xs) && ys[j] in multiset(xs);
      var i' :| 0 <= i' < |xs| && xs[i'] == ys[i];
      var j' :| 0 <= j' < |xs| && xs[j'] == ys[j];
    }
  }

  /** Sorting forgets the input order when ties are equal. */
  lemma SortForgetsOrder<T(!new)>(le: (T, T) -> bool, xs: seq<T>, ys: seq<T>)
    requires TotalPreorder(le)
    requires multiset(xs) == multiset(ys)
    requires Separated(le, xs)
    ensures Sort(le, xs) == Sort(le, ys)
  {
    SortMultiset(le, xs);
    SortMultiset(le, ys);
    SortSorted(le, xs);
    SortSorted(le, ys);
    SeparatedBag(le, xs, Sort(le, xs));
    SortedUnique(le, Sort(le, xs), Sort(le, ys));
  }

  lemma {:induction false} TiedInsertsDiffer<T(!new)>(le: (T, T) -> bool, x: T, y: T, xs: seq<T>)
    requires TotalPreorder(le)
    requires Tied(le, x, y) && x != y
    ensures Insert(le, x, Insert(le, y, xs)) != Insert(le, y, Insert(le, x, xs))
  {
    if xs == [] {
      assert Insert(le, x, Insert(le, y, xs))[0] == x;
      assert Insert(le, y, Insert(le, x, xs))[0] == y;
    } else if le(x, xs[0]) {
      assert le(y, xs[0]);
      assert Insert(le, x, Insert(le, y, xs))[0] == x;
      assert Insert(le, y, Insert(le, x, xs))[0] == y;
    } else {
      assert !le(y, xs[0]);
      TiedInsertsDiffer(le, x, y, xs[1..]);
      assert Insert(le, x, Insert(le, y, xs)) == [xs[0]] + Insert(le, x, Insert(le, y, xs[1..]));
      assert Insert(le, y, Insert(le, x, xs)) == [xs[0]] + Insert(le, y, Insert(le, x, xs[1..]));
      assert Insert(le, x, Insert(le, y, xs))[1..] != Insert(le, y, Insert(le, x, xs))[1..];
    }
  }

  function Without<T>(xs: seq<T>, i: nat): seq<T>
    requires i < |xs|
  {
    xs[..i] + xs[i + 1..]
  }

  lemma RemoveBag<T>(xs: seq<T>, i: nat)
    requires i < |xs|
    ensures multiset(Without(xs, i)) == multiset(xs) - multiset{xs[i]}
    ensures multiset(xs) == multiset(Without(xs, i)) + multiset{xs[i]}
  {
    assert xs == xs[..i] + ([xs[i]] + xs[i + 1..]);
    assert multiset(xs) == multiset(xs[..i]) + multiset([xs[i]] + xs[i + 1..]);
  }

  lemma SwappedSortsDiffer<T(!new)>(le: (T, T) -> bool, x: T, y: T, base: seq<T>)
    requires TotalPreorder(le)
    requires Tied(le, x, y) && x != y
    ensures Sort(le, [x, y] + base) != Sort(le, [y, x] + base)
  {
    var a, b := [x, y] + base, [y, x] + base;
    assert a[1..] == [y] + base && b[1..] == [x] + base;
    assert a[1..][1..] == base && b[1..][1..] == base;
    TiedInsertsDiffer(le, x, y, Sort(le, base));
  }

  lemma PairBag<T>(x: T, y: T, base: seq<T>)
    ensures multiset([x, y] + base) == multiset(base) + multiset{x} + multiset{y}
  {
    assert multiset([x, y]) == multiset{x, y};
  }

  lemma SwapPair<T>(x: T, y: T, base: seq<T>)
    ensures multiset([x, y] + base) == multiset([y, x] + base)
  {
    PairBag(x, y, base);
    PairBag(y, x, base);
  }

  lemma PickTwo<T>(xs: seq<T>, i: nat, j: nat) returns (base: seq<T>)
    requires i < |xs| && j < |xs| && xs[i] != xs[j]
    ensures multiset([xs[i], xs[j]] + base) == multiset(xs)
    ensures multiset([xs[j], xs[i]] + base) == multiset(xs)
  {
    var rest, k := Without(xs, i), if j < i then j else j - 1;
    StillThere(xs, i, j);
    base := Without(rest, k);
    TwoOut(xs, i, k, base);
    PairBag(xs[i], xs[j], base);
    SwapPair(xs[i], xs[j], base);
  }

  lemma StillThere<T>(xs: seq<T>, i: nat, j: nat)
    requires i < |xs| && j < |xs| && i != j
    ensures var k := if j < i then j else j - 1; k < |Without(xs, i)| && Without(xs, i)[k] == xs[j]
  {
  }

  lemma TwoOut<T>(xs: seq<T>, i: nat, k: nat, base: seq<T>)
    requires i < |xs| && k < |Without(xs, i)| && base == Without(Without(xs, i), k)
    ensures multiset(xs) == multiset(base) + multiset{xs[i]} + multiset{Without(xs, i)[k]}
  {
    RemoveBag(xs, i);
    RemoveBag(Without(xs, i), k);
  }

  /** When two tied elements differ, some rearrangement of the input sorts differently. */
  lemma TiesRememberOrder<T(!new)>(le: (T, T) -> bool, xs: seq<T>) returns (ys: seq<T>)
    requires TotalPreorder(le)
    requires !Separated(le, xs)
    ensures multiset(ys) == multiset(xs)
    ensures Sort(le, ys) != Sort(le, xs)
  {
    var i, j :| 0 <= i < |xs| && 0 <= j < |xs| && Tied(le, xs[i], xs[j]) && xs[i] != xs[j];
    var base := PickTwo(xs, i, j);
    SwappedSortsDiffer(le, xs[i], xs[j], base);
    ys := [xs[i], xs[j]] + base;
    if Sort(le, ys) == Sort(le, xs) {
      ys := [xs[j], xs[i]] + base;
    }
  }

  function Map<A, B>(f: A -> B, xs: seq<A>): seq<B> {
    seq(|xs|, i requires 0 <= i < |xs| => f(xs[i]))
  }

  lemma MapCons<A, B>(f: A -> B, x: A, xs: seq<A>)
    ensures Map(f, [x] + xs) == [f(x)] + Map(f, xs)
  {
  }

  /** `le` sees of `x` and of the elements of `xs` only their images. */
  ghost predicate SeesImages<A(!new), B>(le: (A, A) -> bool, le': (B, B) -> bool, f: A -> B, x: A, xs: seq<A>) {
    forall a | a in xs :: le(x, a) == le'(f(x), f(a))
  }

  lemma {:induction false} InsertMap<A(!new), B>(le: (A, A) -> bool, le': (B, B) -> bool, f: A -> B, x: A, xs: seq<A>)
    requires SeesImages(le, le', f, x, xs)
    ensures Map(f, Insert(le, x, xs)) == Insert(le', f(x), Map(f, xs))
  {
    if xs == [] {
    } else {
      var y, rest := xs[0], xs[1..];
      assert xs == [y] + rest;
      MapCons(f, y, rest);
      assert le(x, y) == le'(f(x), f(y));
      if le(x, y) {
        MapCons(f, x, xs);
      } else {
        InsertMap(le, le', f, x, rest);
        MapCons(f, y, Insert(le, x, rest));
        assert Map(f, xs)[1..] == Map(f, rest);
      }
    }
  }

  /** Sorting by an order that only sees `f(x)` commutes with mapping by `f`. */
  lemma {:induction false} SortMap<A(!new), B>(le: (A, A) -> bool, le': (B, B) -> bool, f: A -> B, xs: seq<A>)
    requires forall a, b | a in xs && b in xs :: le(a, b) == le'(f(a), f(b))
    ensures Map(f, Sort(le, xs)) == Sort(le', Map(f, xs))
  {
    if xs == [] {
    } else {
      SortMap(le, le', f, xs[1..]);
      assert Map(f, xs)[1..] == Map(f, xs[1..]);
      forall a | a in Sort(le, xs[1..]) ensures a in xs {
        InSort(le, xs[1..], a);
      }
      InsertMap(le, le', f, xs[0], Sort(le, xs[1..]));
    }
  }

  /** A strictly ascending sequence is determined by its elements. */
  lemma {:induction false} AscendingUnique<T(!new)>(le: (T, T) -> bool, xs: seq<T>, ys: seq<T>)
    requires TotalPreorder(le) && Antisymmetric(le)
    requires Sorted(le, xs) && Sorted(le, ys)
    requires Distinct(xs) && Distinct(ys)
    requires forall x :: x in xs <==> x in ys
    ensures xs == ys
  {
    DistinctBag(xs, ys);
    SortedUnique(le, xs, ys);
  }

  ghost predicate Distinct<T>(xs: seq<T>) {
    forall i, j | 0 <= i < j < |xs| :: xs[i] != xs[j]
  }

  lemma {:induction false} DistinctCount<T>(xs: seq<T>, x: T)
    requires Distinct(xs)
    ensures multiset(xs)[x] == if x in xs then 1 else 0
  {
    if xs == [] {
    } else {
      DistinctCount(xs[1..], x);
      assert xs == [xs[0]] + xs[1..];
    }
  }

  lemma DistinctBag<T>(xs: seq<T>, ys: seq<T>)
    requires Distinct(xs) && Distinct(ys)
    requires forall x :: x in xs <==> x in ys
    ensures multiset(xs) == multiset(ys)
  {
    forall x ensures multiset(xs)[x] == multiset(ys)[x] {
      DistinctCount(xs, x);
      DistinctCount(ys, x);
    }
  }

  lemma DistinctFromBag<T>(xs: seq<T>, ys: seq<T>)
    requires Distinct(xs)
    requires multiset(xs) == multiset(ys)
    ensures Distinct(ys)
  {
    forall i, j | 0 <= i < j < |ys| ensures ys[i] != ys[j] {
      if ys[i] == ys[j] {
        assert ys == ys[..i] + [ys[i]] + ys[i + 1..j] + [ys[j]] + ys[j + 1..];
        assert multiset(ys)[ys[i]] >= 2;
        DistinctCount(xs, ys[i]);
      }
    }
  }

  /** If equal images under one map force equal images under another, equal bags do too. */
  lemma {:induction false} BagTransfer<A, B>(ps: seq<A>, qs: seq<B>, ps': seq<A>, qs': seq<B>)
    requires |ps| == |qs| && |ps'| == |qs'|
    requires forall i, j | 0 <= i < |ps| && 0 <= j < |ps'| && ps[i] == ps'[j] :: qs[i] == qs'[j]
    requires multiset(ps) == multiset(ps')
    ensures multiset(qs) == multiset(qs')
  {
    assert |multiset(ps)| == |multiset(ps')|;
    if ps == [] {
      assert qs == [] && qs' == [];
    } else {
      assert ps[0] in multiset(ps');
      var j :| 0 <= j < |ps'| && ps'[j] == ps[0];
      SameRest(ps, ps', j);
      BagTransfer(ps[1..], qs[1..], Without(ps', j), Without(qs', j));
      TailBag(qs);
      RemoveBag(qs', j);
      assert qs[0] == qs'[j];
      assert multiset(qs) == multiset(qs[1..]) + multiset{qs[0]};
    }
  }

  lemma SameRest<T>(xs: seq<T>, ys: seq<T>, j: nat)
    requires xs != [] && j < |ys| && ys[j] == xs[0]
    requires multiset(xs) == multiset(ys)
    ensures multiset(xs[1..]) == multiset(Without(ys, j))
  {
    TailBag(xs);
    RemoveBag(ys, j);
  }

  /** A rearrangement of the images comes from a rearrangement of the elements. */
  lemma {:induction false} RearrangeImages<A, B>(f: A -> B, xs: seq<A>, ys: seq<B>) returns (zs: seq<A>)
    requires multiset(Map(f, xs)) == multiset(ys)
    ensures multiset(zs) == multiset(xs) && Map(f, zs) == ys
  {
    assert |multiset(Map(f, xs))| == |multiset(ys)|;
    if ys == [] {
      zs := [];
    } else {
      assert ys[0] in multiset(Map(f, xs));
      var i :| 0 <= i < |xs| && Map(f, xs)[i] == ys[0];
      SameRest(ys, Map(f, xs), i);
      assert Without(Map(f, xs), i) == Map(f, Without(xs, i));
      var rest := RearrangeImages(f, Without(xs, i), ys[1..]);
      RemoveBag(xs, i);
      zs := [xs[i]] + rest;
      assert Map(f, zs) == [f(xs[i])] + Map(f, rest);
    }
  }

  lemma SameElements<T>(xs: seq<T>, ys: seq<T>, x: T)
    requires multiset(xs) == multiset(ys)
    ensures x in xs <==> x in ys
  {
    assert x in xs <==> x in multiset(xs);
  }

  function Filter<T>(p: T -> bool, xs: seq<T>): seq<T> {
    if xs == [] then []
    else if p(xs[0]) then [xs[0]] + Filter(p, xs[1..])
    else Filter(p, xs[1..])
  }

  lemma {:induction false} InFilter<T>(p: T -> bool, xs: seq<T>, x: T)
    ensures x in Filter(p, xs) <==> x in xs && p(x)
  {
    if xs == [] {
    } else {
      InFilter(p, xs[1..], x);
      assert xs == [xs[0]] + xs[1..];
    }
  }

  lemma {:induction false} FilterInsert<T(!new)>(le: (T, T) -> bool, p: T -> bool, c: T, x: T, xs: seq<T>)
    requires TotalPreorder(le)
    requires forall y :: p(y) <==> Tied(le, c, y)
    ensures Filter(p, Insert(le, x, xs)) == if p(x) then [x] + Filter(p, xs) else Filter(p, xs)
  {
    if xs == [] {
    } else if le(x, xs[0]) {
      assert ([x] + xs)[1..] == xs;
    } else {
      FilterInsert(le, p, c, x, xs[1..]);
      assert ([xs[0]] + Insert(le, x, xs[1..]))[1..] == Insert(le, x, xs[1..]);
      assert !(p(x) && p(xs[0]));
    }
  }

  /** Elements tied with `c` keep the order they came in. */
  lemma {:induction false} SortStable<T(!new)>(le: (T, T) -> bool, p: T -> bool, c: T, xs: seq<T>)
    requires TotalPreorder(le)
    requires forall y :: p(y) <==> Tied(le, c, y)
    ensures Filter(p, Sort(le, xs)) == Filter(p, xs)
  {
    if xs == [] {
    } else {
      SortStable(le, p, c, xs[1..]);
      FilterInsert(le, p, c, xs[0], Sort(le, xs[1..]));
    }
  }
}
