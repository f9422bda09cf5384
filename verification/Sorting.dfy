/** Python's `sorted`, as an insertion sort over any total preorder, and the
    counting characterisation of its order statistics that the median,
    the round scorer and the canonical payload rely on. */
module Sorting {

  ghost predicate TotalPreorder<T(!new)>(le: (T, T) -> bool) {
    && (forall a, b :: le(a, b) || le(b, a))
    && (forall a, b, c :: le(a, b) && le(b, c) ==> le(a, c))
  }

  ghost predicate Ascending<T>(s: seq<T>, le: (T, T) -> bool) {
    forall i, j | 0 <= i < j < |s| :: le(s[i], s[j])
  }

  /** No two different elements of `s` are tied under `le`. */
  ghost predicate Antisymmetric<T>(s: seq<T>, le: (T, T) -> bool) {
    forall x, y | x in s && y in s && le(x, y) && le(y, x) :: x == y
  }

  function Insert<T>(x: T, s: seq<T>, le: (T, T) -> bool): (r: seq<T>)
    ensures multiset(r) == multiset{x} + multiset(s)
    ensures |r| == |s| + 1
  {
    if s == [] || le(x, s[0]) then
      [x] + s
    else
      assert s == [s[0]] + s[1..];
      [s[0]] + Insert(x, s[1..], le)
  }

  function Sort<T>(s: seq<T>, le: (T, T) -> bool): (r: seq<T>)
    ensures multiset(r) == multiset(s)
    ensures |r| == |s|
  {
    if s == [] then [] else
    assert s == [s[0]] + s[1..];
    Insert(s[0], Sort(s[1..], le), le)
  }

  lemma SortAddsNothing<T>(s: seq<T>, k: nat, le: (T, T) -> bool)
    requires k < |s|
    ensures Sort(s, le)[k] in s
  {
    assert Sort(s, le)[k] in multiset(Sort(s, le));
  }

  lemma SortIsPermutation<T>(s: seq<T>, x: T, le: (T, T) -> bool)
    ensures x in Sort(s, le) <==> x in s
  {
    assert x in multiset(Sort(s, le)) <==> x in multiset(s);
  }

  ghost predicate Distinct<T>(s: seq<T>) {
    forall i, j | 0 <= i < j < |s| :: s[i] != s[j]
  }

  lemma {:induction false} InsertKeepsDistinct<T>(x: T, s: seq<T>, le: (T, T) -> bool)
    requires Distinct(s) && x !in s
    ensures Distinct(Insert(x, s, le))
  {
    if !(s == [] || le(x, s[0])) {
      InsertKeepsDistinct(x, s[1..], le);
      assert s == [s[0]] + s[1..];
      assert s[0] !in s[1..];
      var rest := Insert(x, s[1..], le);
      forall i | 0 <= i < |rest| ensures rest[i] != s[0] {
        assert rest[i] in multiset(rest);
      }
    }
  }

  lemma {:induction false} SortKeepsDistinct<T>(s: seq<T>, le: (T, T) -> bool)
    requires Distinct(s)
    ensures Distinct(Sort(s, le))
  {
    if s != [] {
      SortKeepsDistinct(s[1..], le);
      SortIsPermutation(s[1..], s[0], le);
      assert s[0] !in s[1..];
      InsertKeepsDistinct(s[0], Sort(s[1..], le), le);
    }
  }

  lemma StaysBehind<T>(s: seq<T>, k: nat, x: T)
    requires k < |s| && x in s && x != s[k]
    ensures x in s[..k] + s[k + 1..]
  {
    var j :| 0 <= j < |s| && s[j] == x;
    assert (s[..k] + s[k + 1..])[if j < k then j else j - 1] == x;
  }

  /** Distinct elements, all found in a sequence of the same length, are its elements. */
  lemma {:induction false} SameElements<T>(a: seq<T>, b: seq<T>)
    requires Distinct(a) && |a| == |b| && forall i | 0 <= i < |a| :: a[i] in b
    ensures multiset(a) == multiset(b)
  {
    if a != [] {
      var n := |a| - 1;
      var k :| 0 <= k < |b| && b[k] == a[n];
      var less := b[..k] + b[k + 1..];
      forall i | 0 <= i < n ensures a[..n][i] in less {
        assert a[..n][i] == a[i];
        StaysBehind(b, k, a[i]);
      }
      SameElements(a[..n], less);
      WithoutOne(b, k);
      assert a == a[..n] + [a[n]];
    }
  }

  /** An ascending tie-free sequence is already sorted. */
  lemma SortOfAscending<T(!new)>(s: seq<T>, le: (T, T) -> bool)
    requires TotalPreorder(le)
    requires Ascending(s, le) && Antisymmetric(s, le)
    ensures Sort(s, le) == s
  {
    SortIsAscending(s, le);
    AscendingIsUnique(s, Sort(s, le), le);
  }

  lemma {:induction false} InsertKeepsOrder<T(!new)>(x: T, s: seq<T>, le: (T, T) -> bool)
    requires TotalPreorder(le)
    requires Ascending(s, le)
    ensures Ascending(Insert(x, s, le), le)
  {
    if s == [] || le(x, s[0]) {
    } else {
      var rest := Insert(x, s[1..], le);
      InsertKeepsOrder(x, s[1..], le);
      forall j | 0 <= j < |rest| ensures le(s[0], rest[j]) {
        assert rest[j] in multiset(rest);
        assert rest[j] == x || rest[j] in multiset(s[1..]);
      }
    }
  }

  lemma {:induction false} SortIsAscending<T(!new)>(s: seq<T>, le: (T, T) -> bool)
    requires TotalPreorder(le)
    ensures Ascending(Sort(s, le), le)
  {
    if s != [] {
      SortIsAscending(s[1..], le);
      InsertKeepsOrder(s[0], Sort(s[1..], le), le);
    }
  }

  /** Taking one element out of a sequence takes one copy out of its multiset. */
  lemma WithoutOne<T>(s: seq<T>, i: nat)
    requires i < |s|
    ensures multiset(s[..i] + s[i + 1..]) == multiset(s) - multiset{s[i]}
  {
    assert s == s[..i] + [s[i]] + s[i + 1..];
  }

  /** How many elements are at or below `x`. */
  function CountLe<T>(s: seq<T>, x: T, le: (T, T) -> bool): (n: nat)
    ensures n <= |s|
  {
    if s == [] then 0 else (if le(s[0], x) then 1 else 0) + CountLe(s[1..], x, le)
  }

  lemma {:induction false} CountLeConcat<T>(a: seq<T>, b: seq<T>, x: T, le: (T, T) -> bool)
    ensures CountLe(a + b, x, le) == CountLe(a, x, le) + CountLe(b, x, le)
  {
    if a == [] {
      assert a + b == b;
    } else {
      assert (a + b)[1..] == a[1..] + b;
      CountLeConcat(a[1..], b, x, le);
    }
  }

  lemma CountLeWithoutOne<T>(s: seq<T>, i: nat, x: T, le: (T, T) -> bool)
    requires i < |s|
    ensures CountLe(s, x, le) == CountLe(s[..i] + s[i + 1..], x, le) + (if le(s[i], x) then 1 else 0)
  {
    CountLeConcat(s[..i], s[i + 1..], x, le);
    CountLeConcat(s[..i], s[i..], x, le);
    assert s == s[..i] + s[i..] && s[i..][1..] == s[i + 1..];
  }

  /** Counting does not see the order either. */
  lemma {:induction false} CountLeOfMultiset<T>(a: seq<T>, b: seq<T>, x: T, le: (T, T) -> bool)
    requires multiset(a) == multiset(b)
    ensures CountLe(a, x, le) == CountLe(b, x, le)
  {
    if a == [] {
      assert |multiset(b)| == 0;
    } else {
      assert a[0] in multiset(a) && a[0] in multiset(b);
      var i :| 0 <= i < |b| && b[i] == a[0];
      assert a[..0] + a[1..] == a[1..];
      WithoutOne(a, 0);
      WithoutOne(b, i);
      CountLeOfMultiset(a[1..], b[..i] + b[i + 1..], x, le);
      CountLeWithoutOne(b, i, x, le);
    }
  }

  lemma {:induction false} CountLeOfAscending<T(!new)>(s: seq<T>, k: nat, x: T, le: (T, T) -> bool)
    requires TotalPreorder(le)
    requires Ascending(s, le)
    requires k < |s|
    ensures le(s[k], x) <==> CountLe(s, x, le) > k
  {
    if !le(s[0], x) {
      AllAbove(s, x, le);
    } else if k > 0 {
      CountLeOfAscending(s[1..], k - 1, x, le);
    }
  }

  lemma {:induction false} AllAbove<T(!new)>(s: seq<T>, x: T, le: (T, T) -> bool)
    requires TotalPreorder(le)
    requires forall i | 0 <= i < |s| :: !le(s[i], x)
    ensures CountLe(s, x, le) == 0
  {
    if s != [] {
      AllAbove(s[1..], x, le);
    }
  }

  /** Two ascending arrangements of the same tie-free elements are the same
      sequence: position by position, each is at or below the other. */
  lemma AscendingIsUnique<T(!new)>(a: seq<T>, b: seq<T>, le: (T, T) -> bool)
    requires TotalPreorder(le)
    requires multiset(a) == multiset(b)
    requires Ascending(a, le) && Ascending(b, le)
    requires Antisymmetric(a, le)
    ensures a == b
  {
    assert |multiset(a)| == |multiset(b)|;
    forall k | 0 <= k < |a| ensures a[k] == b[k] {
      CountLeOfMultiset(a, b, a[k], le);
      CountLeOfMultiset(a, b, b[k], le);
      CountLeOfAscending(a, k, b[k], le);
      CountLeOfAscending(b, k, b[k], le);
      CountLeOfAscending(a, k, a[k], le);
      CountLeOfAscending(b, k, a[k], le);
      assert b[k] in multiset(b) && b[k] in a;
    }
  }

  /** Sorting forgets the order its input arrived in. */
  lemma SortIgnoresOrder<T(!new)>(a: seq<T>, b: seq<T>, le: (T, T) -> bool)
    requires TotalPreorder(le)
    requires multiset(a) == multiset(b)
    requires Antisymmetric(a, le)
    ensures Sort(a, le) == Sort(b, le)
  {
    SortIsAscending(a, le);
    SortIsAscending(b, le);
    forall x | x in Sort(a, le) ensures x in a {
      assert x in multiset(Sort(a, le));
    }
    AscendingIsUnique(Sort(a, le), Sort(b, le), le);
  }

  /** The k-th smallest element is at or below `x` exactly when more than `k`
      elements are: order statistics are determined by counting. */
  lemma OrderStatistic<T(!new)>(s: seq<T>, k: nat, x: T, le: (T, T) -> bool)
    requires TotalPreorder(le)
    requires k < |s|
    ensures le(Sort(s, le)[k], x) <==> CountLe(s, x, le) > k
  {
    SortIsAscending(s, le);
    CountLeOfAscending(Sort(s, le), k, x, le);
    CountLeOfMultiset(Sort(s, le), s, x, le);
  }

  /** The positions of the elements at or below `x`. */
  ghost function AtMost<T>(s: seq<T>, x: T, le: (T, T) -> bool): set<int> {
    set i | 0 <= i < |s| && le(s[i], x)
  }

  lemma {:induction false} CountLeIsCount<T(!new)>(s: seq<T>, x: T, le: (T, T) -> bool)
    ensures CountLe(s, x, le) == |AtMost(s, x, le)|
    decreases |s|
  {
    if s == [] {
      assert AtMost(s, x, le) == {};
    } else {
      var n := |s| - 1;
      assert s == s[..n] + [s[n]];
      CountLeConcat(s[..n], [s[n]], x, le);
      CountLeIsCount(s[..n], x, le);
      assert AtMost(s, x, le) == AtMost(s[..n], x, le) + if le(s[n], x) then {n} else {};
    }
  }

  /** `v` is the element of rank `k`, counted from zero: it occurs, more than `k` elements are at or below it,
      and no smaller element can say so. */
  ghost predicate HasRank<T(!new)>(s: seq<T>, k: nat, v: T, le: (T, T) -> bool) {
    && v in s
    && forall x | x in s :: le(v, x) <==> |AtMost(s, x, le)| > k
  }

  lemma SortedHasRank<T(!new)>(s: seq<T>, k: nat, le: (T, T) -> bool)
    requires TotalPreorder(le) && k < |s|
    ensures HasRank(s, k, Sort(s, le)[k], le)
  {
    hide Sort;
    SortAddsNothing(s, k, le);
    forall x | x in s ensures le(Sort(s, le)[k], x) <==> |AtMost(s, x, le)| > k {
      OrderStatistic(s, k, x, le);
      CountLeIsCount(s, x, le);
    }
  }
}
