/** The aggregate median, in the two ports the off-chain services carry: the
    indexer's, which re-derives every aggregate, and the SLA monitor's. */
module Medians {
  import opened Sorting

  predicate IntLe(a: int, b: int) { a <= b }

  /** The indexer's port. Rust truncates toward zero, hence the sign on the half. */
  function Median(prices: seq<int>): int {
    if prices == [] then 0 else
    var s := Sort(prices, IntLe);
    var n := |s|;
    if n % 2 == 1 then s[n / 2] else
    var lower, upper := s[n / 2 - 1], s[n / 2];
    var diff := upper - lower;
    lower + (if diff >= 0 then diff else -diff) / 2 * (if diff >= 0 then 1 else -1)
  }

  /** The SLA monitor's port. Python's `//` floors, as Dafny's does for a positive divisor. */
  function RecomputeMedian(prices: seq<int>): int {
    var s := Sort(prices, IntLe);
    var n := |s|;
    if n == 0 then 0
    else if n % 2 == 1 then s[n / 2]
    else s[n / 2 - 1] + (s[n / 2] - s[n / 2 - 1]) / 2
  }

  lemma PortsAgree(prices: seq<int>)
    ensures Median(prices) == RecomputeMedian(prices)
  {
    SortIsAscending(prices, IntLe);
  }

  ghost predicate MiddleTwo(prices: seq<int>, lower: int, upper: int)
    requires |prices| >= 2
  {
    HasRank(prices, |prices| / 2 - 1, lower, IntLe) && HasRank(prices, |prices| / 2, upper, IntLe)
  }

  /** What a median is, by counting alone: the middle price of an odd number, the point halfway between the
      two middle ones of an even number, rounded down, and zero of none. */
  lemma MedianByCounting(prices: seq<int>)
    ensures prices == [] ==> Median(prices) == 0
    ensures |prices| % 2 == 1 ==> HasRank(prices, |prices| / 2, Median(prices), IntLe)
    ensures prices != [] && |prices| % 2 == 0 ==>
              exists lower, upper :: MiddleTwo(prices, lower, upper) && 2 * Median(prices) <= lower + upper <= 2 * Median(prices) + 1
  {
    hide Sort, HasRank;
    var n := |prices|;
    if n > 0 {
      SortIsAscending(prices, IntLe);
      SortedHasRank(prices, n / 2, IntLe);
      if n % 2 == 0 {
        SortedHasRank(prices, n / 2 - 1, IntLe);
        var s := Sort(prices, IntLe);
        assert IntLe(s[n / 2 - 1], s[n / 2]);
        assert MiddleTwo(prices, s[n / 2 - 1], s[n / 2]);
      }
    }
  }

  lemma IgnoresOrder(a: seq<int>, b: seq<int>)
    requires multiset(a) == multiset(b)
    ensures Median(a) == Median(b)
  {
    hide Sort;
    SortIgnoresOrder(a, b, IntLe);
    assert |multiset(a)| == |a| && |multiset(b)| == |b|;
  }

  lemma {:induction false} CountsShrink(a: seq<int>, b: seq<int>, x: int)
    requires |a| == |b| && forall i | 0 <= i < |a| :: a[i] <= b[i]
    ensures CountLe(b, x, IntLe) <= CountLe(a, x, IntLe)
  {
    if a != [] {
      CountsShrink(a[1..], b[1..], x);
    }
  }

  /** Raising prices never lowers the median. */
  lemma Monotone(a: seq<int>, b: seq<int>)
    requires |a| == |b| && forall i | 0 <= i < |a| :: a[i] <= b[i]
    ensures Median(a) <= Median(b)
  {
    var s, t := Sort(a, IntLe), Sort(b, IntLe);
    forall k: nat | k < |a| ensures s[k] <= t[k] {
      OrderStatistic(b, k, t[k], IntLe);
      CountsShrink(a, b, t[k]);
      OrderStatistic(a, k, t[k], IntLe);
    }
    SortIsAscending(a, IntLe);
    SortIsAscending(b, IntLe);
    if a != [] && |a| % 2 == 0 {
      Halving(s[|a| / 2 - 1], s[|a| / 2], t[|a| / 2 - 1], t[|a| / 2]);
    }
  }

  lemma Halving(a: int, b: int, c: int, d: int)
    requires a <= b && c <= d && a <= c && b <= d
    ensures a + (b - a) / 2 <= c + (d - c) / 2
  {}

  lemma {:induction false} CountAll(s: seq<int>, x: int)
    ensures (forall i | 0 <= i < |s| :: s[i] <= x) ==> CountLe(s, x, IntLe) == |s|
    ensures (forall i | 0 <= i < |s| :: x < s[i]) ==> CountLe(s, x, IntLe) == 0
  {
    if s != [] {
      CountAll(s[1..], x);
    }
  }

  /** Where the k-th smallest of honest and arbitrary prices can lie. */
  lemma OrderStatisticAmongHonest(prices: seq<int>, honest: seq<int>, rogue: seq<int>, k: nat, lo: int, hi: int)
    requires multiset(prices) == multiset(honest + rogue)
    requires k < |prices|
    requires forall i | 0 <= i < |honest| :: lo <= honest[i] <= hi
    ensures k < |honest| ==> Sort(prices, IntLe)[k] <= hi
    ensures |rogue| <= k ==> lo <= Sort(prices, IntLe)[k]
  {
    assert |multiset(prices)| == |prices| && |multiset(honest + rogue)| == |honest + rogue|;
    forall x ensures CountLe(prices, x, IntLe) == CountLe(honest, x, IntLe) + CountLe(rogue, x, IntLe) {
      CountLeOfMultiset(prices, honest + rogue, x, IntLe);
      CountLeConcat(honest, rogue, x, IntLe);
    }
    OrderStatistic(prices, k, hi, IntLe);
    OrderStatistic(prices, k, lo - 1, IntLe);
    CountAll(honest, hi);
    CountAll(honest, lo - 1);
  }

  /** With fewer than half the prices arbitrary, whatever they are and however
      they are interleaved, the median stays inside the honest range. */
  lemma ByzantineRobust(prices: seq<int>, honest: seq<int>, rogue: seq<int>, lo: int, hi: int)
    requires multiset(prices) == multiset(honest + rogue)
    requires |rogue| < |honest|
    requires forall i | 0 <= i < |honest| :: lo <= honest[i] <= hi
    ensures lo <= Median(prices) <= hi
  {
    var n := |prices|;
    assert |multiset(prices)| == n && |multiset(honest + rogue)| == |honest + rogue|;
    OrderStatisticAmongHonest(prices, honest, rogue, n / 2, lo, hi);
    if n % 2 == 0 {
      OrderStatisticAmongHonest(prices, honest, rogue, n / 2 - 1, lo, hi);
    }
  }

  /** The fraction is tight: half the prices are enough to carry the median past any bound. */
  lemma HalfBreaksIt(honest: seq<int>, rogues: nat, bound: int) returns (rogue: seq<int>)
    requires rogues >= |honest| && rogues > 0
    ensures |rogue| == rogues
    ensures Median(honest + rogue) > bound
  {
    var floor := if honest == [] then bound else Least(honest);
    var x := if floor <= bound then 2 * bound - floor + 2 else floor;
    rogue := seq(rogues, _ => x);
    hide Sort;
    var prices := honest + rogue;
    var n := |prices|;
    AtLeast(prices, n / 2, x, |honest|);
    if n % 2 == 0 {
      AtLeast(prices, n / 2 - 1, floor, 0);
      SortIsAscending(prices, IntLe);
      assert IntLe(Sort(prices, IntLe)[n / 2 - 1], Sort(prices, IntLe)[n / 2]);
      HalfwayPasses(Sort(prices, IntLe)[n / 2 - 1], Sort(prices, IntLe)[n / 2], floor, x, bound);
    }
  }

  lemma HalfwayPasses(lower: int, upper: int, floor: int, x: int, bound: int)
    requires floor <= lower <= upper && x <= upper && (floor > bound || x == 2 * bound - floor + 2)
    ensures lower + (upper - lower) / 2 > bound
  {}

  /** Once everything past the first `skip` prices is at least `x`, so is every
      order statistic from `skip` on. */
  lemma AtLeast(prices: seq<int>, k: nat, x: int, skip: nat)
    requires skip <= k < |prices|
    requires forall i | skip <= i < |prices| :: x <= prices[i]
    ensures x <= Sort(prices, IntLe)[k]
  {
    assert prices == prices[..skip] + prices[skip..];
    CountLeConcat(prices[..skip], prices[skip..], x - 1, IntLe);
    CountAll(prices[skip..], x - 1);
    OrderStatistic(prices, k, x - 1, IntLe);
  }

  function Least(s: seq<int>): (m: int)
    requires s != []
    ensures forall i | 0 <= i < |s| :: m <= s[i]
  {
    if |s| == 1 then s[0] else
    var m := Least(s[1..]);
    if s[0] <= m then s[0] else m
  }
}
