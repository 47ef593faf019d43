/**
 * Stable sorting by a key, and the two facts canonical forms rest on: the
 * result does not depend on the order of the input, and it is computed from
 * the keys alone.
 */
module Sorting {

  /** Keys are compared lexicographically, component by component. */
  type Key = seq<string>

  predicate Leq(a: string, b: string)
  {
    a == [] || (b != [] && (a[0] < b[0] || (a[0] == b[0] && Leq(a[1..], b[1..]))))
  }

  lemma {:induction false} LeqTotal(a: string, b: string)
    ensures Leq(a, b) || Leq(b, a)
  {
    if a != [] && b != [] && a[0] == b[0] {
      LeqTotal(a[1..], b[1..]);
    }
  }

  lemma {:induction false} LeqAntisymmetric(a: string, b: string)
    requires Leq(a, b) && Leq(b, a)
    ensures a == b
  {
    if a != [] && b != [] {
      LeqAntisymmetric(a[1..], b[1..]);
      assert a == [a[0]] + a[1..] && b == [b[0]] + b[1..];
    }
  }

  lemma {:induction false} LeqTransitive(a: string, b: string, c: string)
    requires Leq(a, b) && Leq(b, c)
    ensures Leq(a, c)
  {
    if a != [] && b != [] && c != [] && a[0] == b[0] == c[0] {
      LeqTransitive(a[1..], b[1..], c[1..]);
    }
  }

  predicate KeyLeq(a: Key, b: Key)
  {
    a == [] || (b != [] && (if a[0] == b[0] then KeyLeq(a[1..], b[1..]) else Leq(a[0], b[0])))
  }

  lemma {:induction false} KeyLeqTotal(a: Key, b: Key)
    ensures KeyLeq(a, b) || KeyLeq(b, a)
  {
    if a != [] && b != [] {
      if a[0] == b[0] {
        KeyLeqTotal(a[1..], b[1..]);
      } else {
        LeqTotal(a[0], b[0]);
      }
    }
  }

  lemma {:induction false} KeyLeqAntisymmetric(a: Key, b: Key)
    requires KeyLeq(a, b) && KeyLeq(b, a)
    ensures a == b
  {
    if a != [] && b != [] {
      if a[0] == b[0] {
        KeyLeqAntisymmetric(a[1..], b[1..]);
        assert a == [a[0]] + a[1..] && b == [b[0]] + b[1..];
      } else {
        LeqAntisymmetric(a[0], b[0]);
      }
    }
  }

  lemma {:induction false} KeyLeqTransitive(a: Key, b: Key, c: Key)
    requires KeyLeq(a, b) && KeyLeq(b, c)
    ensures KeyLeq(a, c)
  {
    if a != [] && b != [] && c != [] {
      if a[0] == b[0] && b[0] == c[0] {
        KeyLeqTransitive(a[1..], b[1..], c[1..]);
      } else if a[0] != b[0] && b[0] != c[0] {
        LeqTransitive(a[0], b[0], c[0]);
        if a[0] == c[0] {
          LeqAntisymmetric(a[0], b[0]);
        }
      }
    }
  }

  predicate Sorted<T>(xs: seq<T>, key: T -> Key)
  {
    forall i, j :: 0 <= i < j < |xs| ==> KeyLeq(key(xs[i]), key(xs[j]))
  }

  /** No two positions share a key. */
  predicate DistinctKeys<T>(xs: seq<T>, key: T -> Key)
  {
    forall i, j :: 0 <= i < j < |xs| ==> key(xs[i]) != key(xs[j])
  }

  lemma DistinctAt<T>(xs: seq<T>, key: T -> Key, i: nat, j: nat)
    requires DistinctKeys(xs, key) && i < |xs| && j < |xs| && key(xs[i]) == key(xs[j])
    ensures i == j
  {
  }

  function Insert<T>(x: T, xs: seq<T>, key: T -> Key): (r: seq<T>)
    ensures |r| == |xs| + 1
    ensures multiset(r) == multiset{x} + multiset(xs)
  {
    if xs == [] then [x]
    else if KeyLeq(key(x), key(xs[0])) then
      assert [x] + xs == [x] + xs[..];
      [x] + xs
    else
      assert xs == [xs[0]] + xs[1..];
      [xs[0]] + Insert(x, xs[1..], key)
  }

  function SortBy<T>(xs: seq<T>, key: T -> Key): (r: seq<T>)
    ensures |r| == |xs|
    ensures multiset(r) == multiset(xs)
  {
    if xs == [] then []
    else
      assert xs == [xs[0]] + xs[1..];
      Insert(xs[0], SortBy(xs[1..], key), key)
  }

  lemma InMultiset<T>(x: T, xs: seq<T>)
    ensures x in xs <==> x in multiset(xs)
  {
  }

  lemma {:induction false} InsertSorted<T>(x: T, xs: seq<T>, key: T -> Key)
    requires Sorted(xs, key)
    ensures Sorted(Insert(x, xs, key), key)
  {
    if xs != [] {
      if KeyLeq(key(x), key(xs[0])) {
        forall j | 0 <= j < |xs|
          ensures KeyLeq(key(x), key(xs[j]))
        {
          if j > 0 {
            KeyLeqTransitive(key(x), key(xs[0]), key(xs[j]));
          }
        }
      } else {
        KeyLeqTotal(key(x), key(xs[0]));
        InsertSorted(x, xs[1..], key);
        var rest := Insert(x, xs[1..], key);
        forall j | 0 <= j < |rest|
          ensures KeyLeq(key(xs[0]), key(rest[j]))
        {
          assert rest[j] in multiset(rest);
          assert rest[j] == x || rest[j] in xs[1..];
        }
      }
    }
  }

  lemma {:induction false} SortBySorted<T>(xs: seq<T>, key: T -> Key)
    ensures Sorted(SortBy(xs, key), key)
  {
    if xs != [] {
      SortBySorted(xs[1..], key);
      InsertSorted(xs[0], SortBy(xs[1..], key), key);
    }
  }

  /** Sorting keeps exactly the elements. */
  lemma SortByElements<T>(xs: seq<T>, key: T -> Key)
    ensures forall x :: x in SortBy(xs, key) <==> x in xs
  {
    forall x
      ensures x in SortBy(xs, key) <==> x in xs
    {
      InMultiset(x, SortBy(xs, key));
      InMultiset(x, xs);
    }
  }

  /** Elements with equal keys are equal: the case in which order carries no information. */
  ghost predicate KeysDecide<T>(xs: seq<T>, key: T -> Key)
  {
    forall x, y :: x in xs && y in xs && key(x) == key(y) ==> x == y
  }

  lemma KeysDecideTransfer<T>(a: seq<T>, b: seq<T>, key: T -> Key)
    requires multiset(a) == multiset(b) && KeysDecide(a, key)
    ensures KeysDecide(b, key)
  {
    forall x, y | x in b && y in b && key(x) == key(y)
      ensures x == y
    {
      InMultiset(x, a);
      InMultiset(x, b);
      InMultiset(y, a);
      InMultiset(y, b);
    }
  }

  lemma HeadIsLeast<T>(a: seq<T>, x: T, key: T -> Key)
    requires Sorted(a, key) && x in a
    ensures KeyLeq(key(a[0]), key(x))
  {
    KeyLeqReflexive(key(x));
  }

  lemma SameHead<T>(a: seq<T>, b: seq<T>, key: T -> Key)
    requires Sorted(a, key) && Sorted(b, key) && multiset(a) == multiset(b)
    requires KeysDecide(a, key) && a != [] && b != []
    ensures a[0] == b[0]
  {
    InMultiset(a[0], a);
    InMultiset(a[0], b);
    InMultiset(b[0], a);
    InMultiset(b[0], b);
    HeadIsLeast(a, b[0], key);
    HeadIsLeast(b, a[0], key);
    KeyLeqAntisymmetric(key(a[0]), key(b[0]));
  }

  lemma Extract<T>(b: seq<T>, i: nat)
    requires i < |b|
    ensures multiset(b[..i] + b[i + 1..]) == multiset(b) - multiset{b[i]}
  {
    assert b == b[..i] + [b[i]] + b[i + 1..];
  }

  lemma TailMultiset<T>(a: seq<T>, b: seq<T>)
    requires a != [] && b != [] && a[0] == b[0] && multiset(a) == multiset(b)
    ensures multiset(a[1..]) == multiset(b[1..])
  {
    assert a == [a[0]] + a[1..] && b == [b[0]] + b[1..];
    assert multiset(a[1..]) == multiset(a) - multiset{a[0]};
    assert multiset(b[1..]) == multiset(b) - multiset{b[0]};
  }

  lemma SortedTail<T>(a: seq<T>, key: T -> Key)
    requires a != [] && Sorted(a, key) && KeysDecide(a, key)
    ensures Sorted(a[1..], key) && KeysDecide(a[1..], key)
  {
  }

  lemma {:induction false} SortedUnique<T>(a: seq<T>, b: seq<T>, key: T -> Key)
    requires Sorted(a, key) && Sorted(b, key) && multiset(a) == multiset(b)
    requires KeysDecide(a, key)
    ensures a == b
  {
    assert |a| == |multiset(a)| == |b|;
    if a != [] {
      SameHead(a, b, key);
      TailMultiset(a, b);
      SortedTail(a, key);
      KeysDecideTransfer(a, b, key);
      SortedTail(b, key);
      SortedUnique(a[1..], b[1..], key);
      assert a == [a[0]] + a[1..] && b == [b[0]] + b[1..];
    }
  }

  lemma KeyLeqReflexive(a: Key)
    ensures KeyLeq(a, a)
  {
    KeyLeqTotal(a, a);
  }

  /** Sorting forgets the order of its input when keys identify elements. */
  lemma SortByPermutation<T>(a: seq<T>, b: seq<T>, key: T -> Key)
    requires multiset(a) == multiset(b) && KeysDecide(a, key)
    ensures SortBy(a, key) == SortBy(b, key)
  {
    SortBySorted(a, key);
    SortBySorted(b, key);
    KeysDecideTransfer(a, SortBy(a, key), key);
    SortedUnique(SortBy(a, key), SortBy(b, key), key);
  }

  lemma SortByIdentity<T>(a: seq<T>, key: T -> Key)
    requires Sorted(a, key) && KeysDecide(a, key)
    ensures SortBy(a, key) == a
  {
    SortBySorted(a, key);
    SortedUnique(a, SortBy(a, key), key);
  }

  lemma DistinctKeysDecide<T>(xs: seq<T>, key: T -> Key)
    requires DistinctKeys(xs, key)
    ensures KeysDecide(xs, key)
  {
  }

  /** A relation between two lists, position by position. */
  predicate Pairwise<T>(a: seq<T>, b: seq<T>, related: (T, T) -> bool)
  {
    |a| == |b| && forall i :: 0 <= i < |a| ==> related(a[i], b[i])
  }

  /** Position by position, the same keys. */
  predicate SameKeys<T>(a: seq<T>, b: seq<T>, key: T -> Key)
  {
    |a| == |b| && forall i :: 0 <= i < |a| ==> key(a[i]) == key(b[i])
  }

  lemma PairwiseCons<T>(x: T, a: seq<T>, y: T, b: seq<T>, related: (T, T) -> bool)
    requires related(x, y) && Pairwise(a, b, related)
    ensures Pairwise([x] + a, [y] + b, related)
  {
  }

  lemma SameKeysCons<T>(x: T, a: seq<T>, y: T, b: seq<T>, key: T -> Key)
    requires key(x) == key(y) && SameKeys(a, b, key)
    ensures SameKeys([x] + a, [y] + b, key)
  {
  }

  lemma {:induction false} InsertPairwise<T>(x: T, a: seq<T>, y: T, b: seq<T>, key: T -> Key, related: (T, T) -> bool)
    requires Pairwise(a, b, related) && related(x, y) && key(x) == key(y) && SameKeys(a, b, key)
    ensures Pairwise(Insert(x, a, key), Insert(y, b, key), related)
    ensures SameKeys(Insert(x, a, key), Insert(y, b, key), key)
  {
    if a == [] || KeyLeq(key(x), key(a[0])) {
      PairwiseCons(x, a, y, b, related);
      SameKeysCons(x, a, y, b, key);
    } else {
      InsertPairwise(x, a[1..], y, b[1..], key, related);
      PairwiseCons(a[0], Insert(x, a[1..], key), b[0], Insert(y, b[1..], key), related);
      SameKeysCons(a[0], Insert(x, a[1..], key), b[0], Insert(y, b[1..], key), key);
    }
  }

  /** Lists with the same keys, position by position, are sorted the same way. */
  lemma {:induction false} SortByPairwise<T>(a: seq<T>, b: seq<T>, key: T -> Key, related: (T, T) -> bool)
    requires Pairwise(a, b, related) && SameKeys(a, b, key)
    ensures Pairwise(SortBy(a, key), SortBy(b, key), related)
    ensures SameKeys(SortBy(a, key), SortBy(b, key), key)
  {
    if a != [] {
      SortByPairwise(a[1..], b[1..], key, related);
      InsertPairwise(a[0], SortBy(a[1..], key), b[0], SortBy(b[1..], key), key, related);
    }
  }

  function Map<S, T>(f: S -> T, xs: seq<S>): (r: seq<T>)
    ensures |r| == |xs|
    ensures forall i :: 0 <= i < |xs| ==> r[i] == f(xs[i])
  {
    seq(|xs|, i requires 0 <= i < |xs| => f(xs[i]))
  }

  lemma MapWithout<S, T>(f: S -> T, b: seq<S>, i: nat)
    requires i < |b|
    ensures Map(f, b[..i] + b[i + 1..]) == Map(f, b)[..i] + Map(f, b)[i + 1..]
  {
    var left, right := Map(f, b[..i] + b[i + 1..]), Map(f, b)[..i] + Map(f, b)[i + 1..];
    assert |left| == |right|;
    forall j | 0 <= j < |left|
      ensures left[j] == right[j]
    {
      if j < i {
        assert (b[..i] + b[i + 1..])[j] == b[j];
      } else {
        assert (b[..i] + b[i + 1..])[j] == b[j + 1];
      }
    }
  }

  lemma MapRemoved<S, T>(f: S -> T, b: seq<S>, i: nat)
    requires i < |b|
    ensures multiset(Map(f, b)) == multiset(Map(f, b[..i] + b[i + 1..])) + multiset{f(b[i])}
  {
    MapWithout(f, b, i);
    Extract(Map(f, b), i);
  }

  /** Mapping respects reordering. */
  lemma {:induction false} MapMultiset<S, T>(f: S -> T, a: seq<S>, b: seq<S>)
    requires multiset(a) == multiset(b)
    ensures multiset(Map(f, a)) == multiset(Map(f, b))
  {
    assert |a| == |multiset(a)| == |b|;
    if a == [] {
      assert b == [];
    } else {
      InMultiset(a[0], a);
      InMultiset(a[0], b);
      var i :| 0 <= i < |b| && b[i] == a[0];
      Extract(a, 0);
      Extract(b, i);
      assert a[..0] + a[1..] == a[1..];
      MapMultiset(f, a[1..], b[..i] + b[i + 1..]);
      MapRemoved(f, b, i);
      MapHead(f, a);
    }
  }

  lemma MapHead<S, T>(f: S -> T, a: seq<S>)
    requires a != []
    ensures multiset(Map(f, a)) == multiset(Map(f, a[1..])) + multiset{f(a[0])}
  {
    assert Map(f, a) == [f(a[0])] + Map(f, a[1..]);
  }

  /** Distinct keys survive reordering. */
  lemma {:induction false} CountKeys<T>(xs: seq<T>, key: T -> Key)
    ensures DistinctKeys(xs, key) <==> forall k :: multiset(Map(key, xs))[k] <= 1
  {
    if xs != [] {
      CountKeys(xs[1..], key);
      MapHead(key, xs);
      var rest := Map(key, xs[1..]);
      assert multiset(Map(key, xs)) == multiset(rest) + multiset{key(xs[0])};
      if DistinctKeys(xs, key) {
        assert DistinctKeys(xs[1..], key);
        forall k
          ensures multiset(Map(key, xs))[k] <= 1
        {
          if k == key(xs[0]) {
            assert k !in rest;
            InMultiset(k, rest);
          }
        }
      }
      if forall k :: multiset(Map(key, xs))[k] <= 1 {
        forall k
          ensures multiset(rest)[k] <= 1
        {
          assert multiset(Map(key, xs))[k] <= 1;
        }
        forall i, j | 0 <= i < j < |xs|
          ensures key(xs[i]) != key(xs[j])
        {
          if i == 0 {
            assert rest[j - 1] == key(xs[j]);
            InMultiset(key(xs[j]), rest);
            assert multiset(Map(key, xs))[key(xs[0])] <= 1;
          } else {
            assert xs[1..][i - 1] == xs[i] && xs[1..][j - 1] == xs[j];
          }
        }
      }
    }
  }

  lemma DistinctPermutation<T>(a: seq<T>, b: seq<T>, key: T -> Key)
    requires multiset(a) == multiset(b)
    ensures DistinctKeys(a, key) <==> DistinctKeys(b, key)
  {
    CountKeys(a, key);
    CountKeys(b, key);
    MapMultiset(key, a, b);
  }

  lemma SamePermutationElements<T>(a: seq<T>, b: seq<T>)
    requires multiset(a) == multiset(b)
    ensures |a| == |b| && forall x :: x in a <==> x in b
  {
    assert |a| == |multiset(a)| == |b|;
    forall x
      ensures x in a <==> x in b
    {
      InMultiset(x, a);
      InMultiset(x, b);
    }
  }

  /** A function that does not see a relation maps related lists alike. */
  lemma MapRelated<S(!new), T>(f: S -> T, a: seq<S>, m: seq<S>, related: (S, S) -> bool, valid: S -> bool)
    requires Pairwise(a, m, related) && forall i :: 0 <= i < |a| ==> valid(a[i])
    requires forall x, y :: related(x, y) && valid(x) ==> f(x) == f(y)
    ensures Map(f, a) == Map(f, m)
  {
  }

  lemma AllRelated<S(!new)>(a: seq<S>, m: seq<S>, related: (S, S) -> bool, valid: S -> bool)
    requires Pairwise(a, m, related)
    requires forall x, y :: related(x, y) ==> valid(x) == valid(y)
    ensures (forall x :: x in a ==> valid(x)) <==> (forall x :: x in m ==> valid(x))
  {
    forall i | 0 <= i < |a|
      ensures valid(a[i]) == valid(m[i]) && a[i] in a && m[i] in m
    {
    }
  }

  lemma {:induction false} DistinctCount<T>(xs: seq<T>, key: T -> Key, x: T)
    requires DistinctKeys(xs, key)
    ensures multiset(xs)[x] == if x in xs then 1 else 0
  {
    if xs != [] {
      assert xs == [xs[0]] + xs[1..];
      assert forall i :: 0 <= i < |xs[1..]| ==> key(xs[1..][i]) != key(xs[0]);
      DistinctCount(xs[1..], key, x);
    }
  }

  /** Sorted lists of the same distinctly keyed elements are the same list. */
  lemma SameElementsSameList<T(!new)>(a: seq<T>, b: seq<T>, key: T -> Key)
    requires Sorted(a, key) && DistinctKeys(a, key) && Sorted(b, key) && DistinctKeys(b, key)
    requires forall x :: x in a <==> x in b
    ensures a == b
  {
    forall x
      ensures multiset(a)[x] == multiset(b)[x]
    {
      DistinctCount(a, key, x);
      DistinctCount(b, key, x);
    }
    DistinctKeysDecide(a, key);
    SortedUnique(a, b, key);
  }

  function TextKey(s: string): Key { [s] }

  // ----- Ordered iteration -----

  lemma SortedTextDistinct(names: seq<string>)
    requires DistinctKeys(names, TextKey)
    ensures DistinctKeys(SortBy(names, TextKey), TextKey) && Sorted(SortBy(names, TextKey), TextKey)
    ensures forall n :: n in SortBy(names, TextKey) <==> n in names
  {
    SortBySorted(names, TextKey);
    SortByElements(names, TextKey);
    DistinctPermutation(names, SortBy(names, TextKey), TextKey);
  }

  lemma OneMoreName(sorted: seq<string>, name: string)
    requires Sorted(sorted, TextKey) && DistinctKeys(sorted, TextKey) && name !in sorted
    ensures Sorted(Insert(name, sorted, TextKey), TextKey) && DistinctKeys(Insert(name, sorted, TextKey), TextKey)
    ensures forall n :: n in Insert(name, sorted, TextKey) <==> n in sorted || n == name
  {
    var more := [name] + sorted;
    InsertSorted(name, sorted, TextKey);
    assert multiset(Insert(name, sorted, TextKey)) == multiset(more);
    forall i | 0 <= i < |sorted|
      ensures TextKey(name) != TextKey(sorted[i])
    {
      assert sorted[i] in sorted;
      assert TextKey(sorted[i])[0] == sorted[i];
    }
    DistinctPermutation(more, Insert(name, sorted, TextKey), TextKey);
    SamePermutationElements(more, Insert(name, sorted, TextKey));
  }

  /** The names in order, each once. */
  ghost function Ordered(names: set<string>): (sorted: seq<string>)
    ensures Sorted(sorted, TextKey) && DistinctKeys(sorted, TextKey)
    ensures forall name :: name in sorted <==> name in names
    decreases |names|
  {
    if names == {} then []
    else
      var name :| name in names;
      var rest := Ordered(names - {name});
      OneMoreName(rest, name);
      Insert(name, rest, TextKey)
  }

  lemma OrderedIs(sorted: seq<string>, names: set<string>)
    requires Sorted(sorted, TextKey) && DistinctKeys(sorted, TextKey) && forall name :: name in sorted <==> name in names
    ensures sorted == Ordered(names)
  {
    SameElementsSameList(sorted, Ordered(names), TextKey);
  }

  /** The names from position `i` on, as a set. */
  ghost function Later(names: seq<string>, i: nat): set<string>
    requires i <= |names|
    decreases |names| - i
  {
    if i == |names| then {} else {names[i]} + Later(names, i + 1)
  }

  lemma {:induction false} LaterMembers(names: seq<string>, i: nat)
    requires i <= |names|
    ensures forall name :: name in Later(names, i) <==> name in names[i..]
    decreases |names| - i
  {
    if i < |names| {
      LaterMembers(names, i + 1);
      assert names[i..] == [names[i]] + names[i + 1..];
    }
  }

  lemma LaterAll(names: seq<string>, all: set<string>)
    requires forall name :: name in names <==> name in all
    ensures Later(names, 0) == all
  {
    LaterMembers(names, 0);
    assert names[0..] == names;
  }

  lemma LaterNext(names: seq<string>, i: nat)
    requires DistinctKeys(names, TextKey) && i < |names|
    ensures Later(names, i + 1) == Later(names, i) - {names[i]}
  {
    LaterMembers(names, i + 1);
    forall k | i < k < |names|
      ensures names[k] != names[i]
    {
      assert TextKey(names[i]) != TextKey(names[k]);
    }
  }

  /** The keys of an ordered map, in order. */
  method SortedNames(names: set<string>) returns (sorted: seq<string>)
    ensures Sorted(sorted, TextKey) && DistinctKeys(sorted, TextKey)
    ensures forall name :: name in sorted <==> name in names
  {
    var rest := names;
    var taken: seq<string> := [];
    while rest != {}
      invariant rest <= names
      invariant forall name :: name in taken <==> name in names && name !in rest
      invariant DistinctKeys(taken, TextKey)
      decreases |rest|
    {
      var name :| name in rest;
      forall i | 0 <= i < |taken|
        ensures TextKey(taken[i]) != TextKey(name)
      {
        assert taken[i] in taken;
        assert TextKey(taken[i])[0] == taken[i];
      }
      taken := taken + [name];
      rest := rest - {name};
    }
    SortedTextDistinct(taken);
    sorted := SortBy(taken, TextKey);
  }

  /** As many values as indices, when no two indices share one. */
  lemma {:induction false} CountImages<T(!new)>(f: nat -> T, count: nat)
    requires forall i: nat, j: nat :: i < j < count ==> f(i) != f(j)
    ensures |set i: nat | i < count :: f(i)| == count
  {
    if count > 0 {
      CountImages(f, count - 1);
      var fewer := set i: nat | i < count - 1 :: f(i);
      assert (set i: nat | i < count :: f(i)) == fewer + {f(count - 1)};
    }
  }

  lemma SubsetSize<T>(a: set<T>, b: set<T>)
    requires a <= b
    ensures |a| <= |b|
  {
    assert a + (b - a) == b;
  }
}
