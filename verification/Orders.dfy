/**
 String order, sorted permutations, and the contract of Go's unstable sort.

 `sort.Slice` and `sort.Strings` promise a permutation in which no later element is
 less than an earlier one, and nothing about ties.  Everything here is stated for every
 sequence that meets that promise, so a result that holds for all of them does not depend
 on the sorting algorithm.
 */
module Orders {

  datatype Option<+T> = None | Some(value: T)

  /** Go's `<` on strings.  Go compares UTF-8 bytes; on valid UTF-8 that is the order of
      the code points, which is Dafny's order on `char`. */
  predicate StrLess(a: string, b: string) {
    b != [] && (a == [] || a[0] < b[0] || (a[0] == b[0] && StrLess(a[1..], b[1..])))
  }

  lemma {:induction false} StrLessTotal(a: string, b: string)
    ensures StrLess(a, b) || a == b || StrLess(b, a)
    ensures !(StrLess(a, b) && StrLess(b, a))
    ensures !StrLess(a, a)
  {
    if a != [] && b != [] {
      StrLessTotal(a[1..], b[1..]);
      StrLessTotal(a[1..], a[1..]);
      if a[0] == b[0] && a[1..] == b[1..] {
        assert a == [a[0]] + a[1..] == b;
      }
    } else if a != [] {
      StrLessTotal(a[1..], a[1..]);
    }
  }

  lemma {:induction false} StrLessTransitive(a: string, b: string, c: string)
    requires StrLess(a, b) && StrLess(b, c)
    ensures StrLess(a, c)
  {
    if a != [] && a[0] == b[0] == c[0] {
      StrLessTransitive(a[1..], b[1..], c[1..]);
    }
  }

  /** Which of two strings is the smaller one: they agree up to some place where the smaller one ends or has the
      smaller character. */
  lemma {:induction false} StrLessMeans(a: string, b: string)
    ensures StrLess(a, b) <==>
            exists n: nat :: n <= |a| && n < |b| && a[..n] == b[..n] && (n == |a| || a[n] < b[n])
  {
    if StrLess(a, b) {
      var n := FirstDifference(a, b);
    }
    if n: nat :| n <= |a| && n < |b| && a[..n] == b[..n] && (n == |a| || a[n] < b[n]) { LessAt(a, b, n); }
  }

  lemma {:induction false} FirstDifference(a: string, b: string) returns (n: nat)
    requires StrLess(a, b)
    ensures n <= |a| && n < |b| && a[..n] == b[..n] && (n == |a| || a[n] < b[n])
  {
    if a == [] || a[0] < b[0] {
      n := 0;
    } else {
      var m := FirstDifference(a[1..], b[1..]);
      n := m + 1;
      assert a[..n] == [a[0]] + a[1..][..m] && b[..n] == [b[0]] + b[1..][..m];
    }
  }

  lemma {:induction false} LessAt(a: string, b: string, n: nat)
    requires n <= |a| && n < |b| && a[..n] == b[..n] && (n == |a| || a[n] < b[n])
    ensures StrLess(a, b)
  {
    if n > 0 {
      assert a[0] == a[..n][0] == b[..n][0] == b[0];
      assert a[1..][..n - 1] == a[..n][1..] && b[1..][..n - 1] == b[..n][1..];
      LessAt(a[1..], b[1..], n - 1);
    }
  }

  /** What a comparison passed to `sort.Slice` must be for the result to be sorted. */
  ghost predicate WeakOrder<T(!new)>(less: (T, T) -> bool) {
    && (forall x, y :: less(x, y) ==> !less(y, x))
    && (forall x, y, z :: less(x, z) ==> less(x, y) || less(y, z))
  }

  lemma {:induction false} StrLessWeakOrder()
    ensures WeakOrder(StrLess)
  {
    forall x: string, y: string ensures StrLess(x, y) ==> !StrLess(y, x) { StrLessTotal(x, y); }
    forall x: string, y: string, z: string | StrLess(x, z) ensures StrLess(x, y) || StrLess(y, z) {
      StrLessTotal(x, y);
      StrLessTotal(y, z);
      if StrLess(z, y) && !StrLess(x, y) {
        if x != y { StrLessTransitive(z, y, x); StrLessTotal(x, z); }
      }
    }
  }

  /** Two strings compared first by one, then by the other: the shape of every comparison here. */
  predicate PairLess(k1: string, t1: string, k2: string, t2: string) {
    if k1 != k2 then StrLess(k1, k2) else StrLess(t1, t2)
  }

  lemma {:induction false} PairLessOrder(k1: string, t1: string, k2: string, t2: string, k3: string, t3: string)
    ensures PairLess(k1, t1, k2, t2) ==> !PairLess(k2, t2, k1, t1)
    ensures PairLess(k1, t1, k3, t3) ==> PairLess(k1, t1, k2, t2) || PairLess(k2, t2, k3, t3)
  {
    StrLessWeakOrder();
    StrLessTotal(k1, k2);
    StrLessTotal(k2, k3);
    StrLessTotal(k1, k3);
    StrLessTotal(t1, t2);
  }

  ghost predicate SortedBy<T>(less: (T, T) -> bool, s: seq<T>) {
    forall i, j :: 0 <= i < j < |s| ==> !less(s[j], s[i])
  }

  /** Everything `sort.Slice` promises about `sorted` as a result of sorting `input`. */
  ghost predicate IsSortOf<T>(less: (T, T) -> bool, sorted: seq<T>, input: seq<T>) {
    multiset(sorted) == multiset(input) && SortedBy(less, sorted)
  }

  /** Elements that the comparison cannot tell apart are equal. */
  ghost predicate TiesAreEqual<T(!new)>(less: (T, T) -> bool, elements: multiset<T>) {
    forall x, y :: x in elements && y in elements && !less(x, y) && !less(y, x) ==> x == y
  }

  lemma {:induction false} PermutationLength<T>(a: seq<T>, b: seq<T>)
    requires multiset(a) == multiset(b)
    ensures |a| == |b|
  {
    assert |multiset(a)| == |a| && |multiset(b)| == |b|;
  }

  lemma {:induction false} TailMultiset<T>(s: seq<T>)
    requires s != []
    ensures multiset(s[1..]) == multiset(s) - multiset{s[0]}
  {
    assert s == [s[0]] + s[1..];
  }

  lemma {:induction false} SortedHead<T(!new)>(less: (T, T) -> bool, a: seq<T>, x: T)
    requires SortedBy(less, a) && x in a
    ensures x == a[0] || !less(x, a[0])
  {
    var i :| 0 <= i < |a| && a[i] == x;
  }

  lemma {:induction false} SameHead<T(!new)>(less: (T, T) -> bool, a: seq<T>, b: seq<T>)
    requires multiset(a) == multiset(b) && a != [] && b != []
    requires SortedBy(less, a) && SortedBy(less, b) && TiesAreEqual(less, multiset(a))
    ensures a[0] == b[0]
  {
    var x, y := a[0], b[0];
    assert x in multiset(b) && y in multiset(a);
    SortedHead(less, a, y);
    SortedHead(less, b, x);
  }

  /** The rest of a sort without ties is one too. */
  lemma {:induction false} SortedTail<T(!new)>(less: (T, T) -> bool, s: seq<T>)
    requires s != [] && SortedBy(less, s)
    ensures SortedBy(less, s[1..])
    ensures TiesAreEqual(less, multiset(s)) ==> TiesAreEqual(less, multiset(s[1..]))
  {
    TailMultiset(s);
    assert forall x :: x in multiset(s[1..]) ==> x in multiset(s);
  }

  lemma {:induction false} SameTails<T>(a: seq<T>, b: seq<T>)
    requires multiset(a) == multiset(b) && a != [] && b != [] && a[0] == b[0]
    ensures multiset(a[1..]) == multiset(b[1..])
  {
    TailMultiset(a);
    TailMultiset(b);
  }

  lemma {:induction false} HeadAndTail<T>(a: seq<T>, b: seq<T>)
    requires a != [] && b != [] && a[0] == b[0] && a[1..] == b[1..]
    ensures a == b
  {
    assert a == [a[0]] + a[1..] && b == [b[0]] + b[1..];
  }

  /** Without ties there is only one sorted permutation: an unstable sort is deterministic. */
  lemma {:induction false} SortUnique<T(!new)>(less: (T, T) -> bool, a: seq<T>, b: seq<T>)
    requires multiset(a) == multiset(b)
    requires SortedBy(less, a) && SortedBy(less, b)
    requires TiesAreEqual(less, multiset(a))
    ensures a == b
    decreases |a|
  {
    PermutationLength(a, b);
    if a != [] {
      SameHead(less, a, b);
      SortedTail(less, a);
      SortedTail(less, b);
      SameTails(a, b);
      SortUnique(less, a[1..], b[1..]);
      HeadAndTail(a, b);
    }
  }

  function MapSeq<T, U>(f: T -> U, s: seq<T>): (r: seq<U>)
    ensures |r| == |s|
    ensures forall i :: 0 <= i < |s| ==> r[i] == f(s[i])
  {
    seq(|s|, i requires 0 <= i < |s| => f(s[i]))
  }

  lemma {:induction false} RemoveAt<T>(s: seq<T>, i: nat)
    requires i < |s|
    ensures multiset(s[..i] + s[i + 1..]) == multiset(s) - multiset{s[i]}
  {
    assert s == s[..i] + [s[i]] + s[i + 1..];
    assert multiset(s) == multiset(s[..i]) + multiset{s[i]} + multiset(s[i + 1..]);
  }

  /** The first element of `a` has a partner in its permutation `b`; without them the rests
      are still permutations of each other. */
  lemma {:induction false} MatchFirst<T>(a: seq<T>, b: seq<T>) returns (i: nat)
    requires multiset(a) == multiset(b) && a != []
    ensures i < |b| && b[i] == a[0] && multiset(a[..0] + a[1..]) == multiset(b[..i] + b[i + 1..])
  {
    assert a[0] in multiset(b);
    i :| 0 <= i < |b| && b[i] == a[0];
    RemoveAt(a, 0);
    RemoveAt(b, i);
  }

  lemma {:induction false} RestoreMember<T>(a: multiset<T>, b: multiset<T>, x: T)
    requires x in a && x in b && a - multiset{x} == b - multiset{x}
    ensures a == b
  {
    assert a == a - multiset{x} + multiset{x};
    assert b == b - multiset{x} + multiset{x};
  }

  lemma {:induction false} MapRemoveAt<T, U>(f: T -> U, s: seq<T>, i: nat)
    requires i < |s|
    ensures multiset(MapSeq(f, s[..i] + s[i + 1..])) == multiset(MapSeq(f, s)) - multiset{f(s[i])}
    ensures f(s[i]) in multiset(MapSeq(f, s))
  {
    var fs := MapSeq(f, s);
    RemoveAt(fs, i);
    assert MapSeq(f, s[..i] + s[i + 1..]) == fs[..i] + fs[i + 1..];
  }

  /** Permuting the arguments permutes the images. */
  lemma {:induction false} MapPermutation<T, U>(f: T -> U, a: seq<T>, b: seq<T>)
    requires multiset(a) == multiset(b)
    ensures multiset(MapSeq(f, a)) == multiset(MapSeq(f, b))
    decreases |a|
  {
    PermutationLength(a, b);
    if a != [] {
      var i := MatchFirst(a, b);
      MapPermutation(f, a[..0] + a[1..], b[..i] + b[i + 1..]);
      MapRemoveAt(f, a, 0);
      MapRemoveAt(f, b, i);
      RestoreMember(multiset(MapSeq(f, a)), multiset(MapSeq(f, b)), f(a[0]));
    }
  }

  /** The `Some` results of `f` on the elements of `s`, in order: an appending loop. */
  ghost function Collect<T, U>(f: T -> Option<U>, s: seq<T>): seq<U> {
    if s == [] then [] else Collect(f, s[..|s| - 1]) + Kept(f(s[|s| - 1]))
  }

  ghost function Kept<U>(o: Option<U>): seq<U> { if o.Some? then [o.value] else [] }

  lemma {:induction false} CollectAppend<T, U>(f: T -> Option<U>, a: seq<T>, b: seq<T>)
    ensures Collect(f, a + b) == Collect(f, a) + Collect(f, b)
    decreases |b|
  {
    if b == [] {
      assert a + b == a;
    } else {
      var last := b[|b| - 1];
      assert (a + b)[..|a + b| - 1] == a + b[..|b| - 1];
      CollectAppend(f, a, b[..|b| - 1]);
    }
  }

  lemma {:induction false} CollectStep<T, U>(f: T -> Option<U>, s: seq<T>, i: nat)
    requires i < |s|
    ensures Collect(f, s[..i + 1]) == Collect(f, s[..i]) + Kept(f(s[i]))
  {
    assert s[..i + 1][..i] == s[..i];
  }

  lemma {:induction false} CollectMember<T, U>(f: T -> Option<U>, s: seq<T>, y: U)
    ensures y in Collect(f, s) <==> exists i :: 0 <= i < |s| && f(s[i]) == Some(y)
  {
    if s != [] {
      var front := s[..|s| - 1];
      CollectMember(f, front, y);
      if i :| 0 <= i < |s| && f(s[i]) == Some(y) {
        assert i < |front| ==> f(front[i]) == Some(y);
      }
      if j :| 0 <= j < |front| && f(front[j]) == Some(y) { assert f(s[j]) == Some(y); }
    }
  }

  lemma {:induction false} MultisetMiddle<T>(a: seq<T>, x: seq<T>, b: seq<T>)
    ensures multiset(a + x + b) == multiset(a + b) + multiset(x)
  {
  }

  lemma {:induction false} CollectSplit<T, U>(f: T -> Option<U>, s: seq<T>, i: nat)
    requires i < |s|
    ensures Collect(f, s) == Collect(f, s[..i]) + Kept(f(s[i])) + Collect(f, s[i + 1..])
  {
    CollectAppend(f, s[..i + 1], s[i + 1..]);
    CollectStep(f, s, i);
    assert s == s[..i + 1] + s[i + 1..];
  }

  lemma {:induction false} CollectRemoveAt<T, U>(f: T -> Option<U>, s: seq<T>, i: nat)
    requires i < |s|
    ensures multiset(Collect(f, s)) == multiset(Collect(f, s[..i] + s[i + 1..])) + multiset(Kept(f(s[i])))
  {
    CollectAppend(f, s[..i], s[i + 1..]);
    CollectSplit(f, s, i);
    MultisetMiddle(Collect(f, s[..i]), Kept(f(s[i])), Collect(f, s[i + 1..]));
  }

  lemma {:induction false} CollectPermutation<T, U>(f: T -> Option<U>, a: seq<T>, b: seq<T>)
    requires multiset(a) == multiset(b)
    ensures multiset(Collect(f, a)) == multiset(Collect(f, b))
    decreases |a|
  {
    PermutationLength(a, b);
    if a != [] {
      var i := MatchFirst(a, b);
      CollectPermutation(f, a[..0] + a[1..], b[..i] + b[i + 1..]);
      CollectRemoveAt(f, a, 0);
      CollectRemoveAt(f, b, i);
    }
  }

  ghost predicate Distinct<T>(s: seq<T>) { forall i, j :: 0 <= i < j < |s| ==> s[i] != s[j] }

  lemma {:induction false} DistinctMultiset<T>(s: seq<T>)
    requires Distinct(s)
    ensures forall x :: x in multiset(s) ==> multiset(s)[x] == 1
  {
    if s != [] {
      DistinctMultiset(s[1..]);
      assert s == [s[0]] + s[1..];
    }
  }

  lemma {:induction false} TwiceInMultiset<T>(s: seq<T>, i: nat, j: nat)
    requires i < j < |s| && s[i] == s[j]
    ensures multiset(s)[s[i]] >= 2
  {
    assert s == s[..i] + [s[i]] + s[i + 1..j] + [s[j]] + s[j + 1..];
  }

  lemma {:induction false} DistinctPermutation<T>(a: seq<T>, b: seq<T>)
    requires multiset(a) == multiset(b) && Distinct(a)
    ensures Distinct(b)
  {
    DistinctMultiset(a);
    forall i, j | 0 <= i < j < |b| ensures b[i] != b[j] {
      if b[i] == b[j] { TwiceInMultiset(b, i, j); }
    }
  }

  /** Exchanging two tied elements of a sorted sequence leaves it a sort of the same input. */
  lemma {:induction false} SwapTies<T(!new)>(less: (T, T) -> bool, s: seq<T>, i: nat, j: nat)
    requires WeakOrder(less) && SortedBy(less, s)
    requires i < j < |s| && !less(s[i], s[j]) && !less(s[j], s[i])
    ensures IsSortOf(less, s[i := s[j]][j := s[i]], s)
  {
    var t := s[i := s[j]][j := s[i]];
    assert multiset(t) == multiset(s);
    assert forall k :: 0 <= k < |s| ==> t[k] == if k == i then s[j] else if k == j then s[i] else s[k];
  }

  /** Sorting by a key: permuted inputs give the same sequence of keys, whatever the sort
      does with elements that share one. */
  lemma {:induction false} SortedKeysUnique<T, K(!new)>(key: T -> K, less: (K, K) -> bool, a: seq<T>, b: seq<T>)
    requires multiset(a) == multiset(b)
    requires SortedBy((x, y) => less(key(x), key(y)), a)
    requires SortedBy((x, y) => less(key(x), key(y)), b)
    requires TiesAreEqual(less, multiset(MapSeq(key, a)))
    ensures MapSeq(key, a) == MapSeq(key, b)
  {
    MapPermutation(key, a, b);
    var keyLess := (x, y) => less(key(x), key(y));
    var ka, kb := MapSeq(key, a), MapSeq(key, b);
    forall i, j | 0 <= i < j < |ka| ensures !less(ka[j], ka[i]) { assert !keyLess(a[j], a[i]); }
    forall i, j | 0 <= i < j < |kb| ensures !less(kb[j], kb[i]) { assert !keyLess(b[j], b[i]); }
    SortUnique(less, ka, kb);
  }

  lemma {:induction false} PermutationOfPrefix<T>(s: seq<T>, r: seq<T>, k: nat, at: nat)
    requires at <= |r| && k < |s| && multiset(r) == multiset(s[..k])
    ensures multiset(r[..at] + [s[k]] + r[at..]) == multiset(s[..k + 1])
  {
    assert r == r[..at] + r[at..];
    assert s[..k + 1] == s[..k] + [s[k]];
  }

  /** The library sort: one algorithm that meets the promise. */
  method SortSlice<T(!new)>(less: (T, T) -> bool, s: seq<T>) returns (r: seq<T>)
    requires WeakOrder(less)
    ensures IsSortOf(less, r, s)
  {
    r := [];
    for k := 0 to |s|
      invariant multiset(r) == multiset(s[..k])
      invariant SortedBy(less, r)
    {
      var at := |r|;
      while at > 0 && less(s[k], r[at - 1])
        invariant 0 <= at <= |r|
        invariant forall i :: at <= i < |r| ==> less(s[k], r[i])
      {
        at := at - 1;
      }
      assert forall i :: 0 <= i < at ==> !less(s[k], r[i]) by {
        if at > 0 {
          assert !less(s[k], r[at - 1]);
          assert forall i :: 0 <= i < at - 1 ==> !less(r[at - 1], r[i]);
        }
      }
      PermutationOfPrefix(s, r, k, at);
      r := r[..at] + [s[k]] + r[at..];
    }
    assert s[..|s|] == s;
  }

  /** Strictly increasing: what a sort leaves of distinct strings. */
  ghost predicate Increasing(s: seq<string>) {
    forall i, j :: 0 <= i < j < |s| ==> StrLess(s[i], s[j])
  }

  ghost function Elements<T>(s: seq<T>): set<T> { set x | x in s }

  lemma {:induction false} NoElements<T>(s: seq<T>)
    ensures Elements(s) == {} <==> s == []
  {
    assert s != [] ==> s[0] in Elements(s);
  }

  lemma {:induction false} AppendElement<T>(s: seq<T>, x: T)
    ensures Elements(s + [x]) == Elements(s) + {x}
  {
    forall y ensures y in Elements(s + [x]) <==> y in Elements(s) + {x} {
      assert y in s + [x] <==> y in s || y == x;
    }
  }

  lemma {:induction false} DistinctSize<T>(s: seq<T>)
    requires Distinct(s)
    ensures |Elements(s)| == |s|
  {
    if s != [] {
      var n := |s| - 1;
      DistinctSize(s[..n]);
      AppendElement(s[..n], s[n]);
      assert s == s[..n] + [s[n]];
    }
  }

  /** Sequences without common elements join into one without repetition. */
  lemma {:induction false} DistinctJoin<T>(a: seq<T>, b: seq<T>)
    requires Distinct(a) && Distinct(b) && Elements(a) !! Elements(b)
    ensures Distinct(a + b) && Elements(a + b) == Elements(a) + Elements(b)
  {
    forall i, j | 0 <= i < |a| && 0 <= j < |b| ensures a[i] != b[j] {
      assert a[i] in Elements(a) && b[j] in Elements(b);
    }
    forall x ensures x in Elements(a + b) <==> x in Elements(a) + Elements(b) {
      assert x in a + b <==> x in a || x in b;
    }
  }

  lemma {:induction false} SubsetSize<T>(a: set<T>, b: set<T>)
    requires a <= b
    ensures |a| <= |b| && (|a| == |b| ==> a == b)
  {
    assert b == a + (b - a);
  }

  lemma {:induction false} FirstBelowTail(a: seq<string>)
    requires a != [] && Increasing(a)
    ensures forall x :: x in a[1..] ==> StrLess(a[0], x)
    ensures a[0] !in a[1..]
  {
    StrLessTotal(a[0], a[0]);
  }

  lemma {:induction false} IncreasingTail(a: seq<string>)
    requires a != [] && Increasing(a)
    ensures Increasing(a[1..])
    ensures Elements(a[1..]) == Elements(a) - {a[0]}
    ensures forall x :: x in a[1..] ==> StrLess(a[0], x)
  {
    FirstBelowTail(a);
    forall x ensures x in Elements(a[1..]) <==> x in Elements(a) - {a[0]} {
      assert a == [a[0]] + a[1..];
    }
  }

  /** A set of strings has one strictly increasing listing. */
  lemma {:induction false} IncreasingUnique(a: seq<string>, b: seq<string>)
    requires Increasing(a) && Increasing(b)
    requires Elements(a) == Elements(b)
    ensures a == b
  {
    NoElements(a);
    NoElements(b);
    if a != [] {
      IncreasingTail(a);
      IncreasingTail(b);
      assert a[0] in Elements(b) && b[0] in Elements(a);
      assert b[0] == a[0] || b[0] in Elements(a[1..]);
      assert a[0] == b[0] || a[0] in Elements(b[1..]);
      StrLessTotal(a[0], b[0]);
      IncreasingUnique(a[1..], b[1..]);
      assert a == [a[0]] + a[1..] && b == [b[0]] + b[1..];
    }
  }

  ghost predicate IsLeast(least: string, keys: set<string>) {
    least in keys && forall k :: k in keys ==> k == least || StrLess(least, k)
  }

  lemma {:induction false} LeastExists(keys: set<string>) returns (least: string)
    requires keys != {}
    ensures IsLeast(least, keys)
    decreases |keys|
  {
    var k :| k in keys;
    var others := keys - {k};
    assert forall x :: x in keys ==> x in others || x == k;
    least := k;
    if others != {} {
      var l := LeastExists(others);
      StrLessTotal(k, l);
      if StrLess(l, k) { least := l; }
      forall x | x in keys ensures x == least || StrLess(least, x) {
        if x in others && x != l && least == k { StrLessTransitive(k, l, x); }
      }
    }
  }

  lemma {:induction false} IncreasingCons(least: string, rest: seq<string>, keys: set<string>)
    requires IsLeast(least, keys) && Increasing(rest) && Elements(rest) == keys - {least}
    ensures Increasing([least] + rest) && Elements([least] + rest) == keys
  {
    var r := [least] + rest;
    forall i, j | 0 <= i < j < |r| ensures StrLess(r[i], r[j]) {
      assert r[j] in Elements(rest);
    }
    forall x ensures x in Elements(r) <==> x in keys {
      assert x in Elements(r) <==> x == least || x in Elements(rest);
    }
  }

  /** The keys of a map in the order `sort.Strings` leaves them. */
  ghost function SortedKeys(keys: set<string>): (r: seq<string>)
    ensures Increasing(r) && Elements(r) == keys
    decreases |keys|
  {
    if keys == {} then
      []
    else
      assert exists l :: IsLeast(l, keys) by { var l := LeastExists(keys); }
      var least :| IsLeast(least, keys);
      var rest := SortedKeys(keys - {least});
      IncreasingCons(least, rest, keys);
      [least] + rest
  }
}
