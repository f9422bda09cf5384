/** Round scoring by modified z-score, in batch and streaming form. */
module Detection {
  import opened Sorting

  datatype Submission = Submission(asset: string, source: string, price: int, timestamp: int, ledger: int)
  datatype Config = Config(madThreshold: real, minPeers: int, minDeviationBps: real)

  /** The z-score of a submission; infinite when the round has no spread but the submission deviates. */
  datatype Score = Infinite | Finite(z: real)
  datatype Alert = Alert(asset: string, source: string, price: int, roundMedian: real, z: Score,
                         deviationBps: real, timestamp: int, ledger: int)

  const MAD_SCALE := 1.4826

  predicate RealLe(a: real, b: real) { a <= b }

  function Abs(x: real): real { if x >= 0.0 then x else -x }

  /** `statistics.median`. */
  function StatMedian(xs: seq<real>): real
    requires xs != []
  {
    var s := Sort(xs, RealLe);
    var n := |s|;
    if n % 2 == 1 then s[n / 2] else (s[n / 2 - 1] + s[n / 2]) / 2.0
  }

  function Prices(subs: seq<Submission>): seq<real> {
    seq(|subs|, i requires 0 <= i < |subs| => subs[i].price as real)
  }

  function Deviations(subs: seq<Submission>, median: real): seq<real> {
    seq(|subs|, i requires 0 <= i < |subs| => Abs(subs[i].price as real - median))
  }

  function ZScore(price: real, median: real, mad: real): Score {
    if mad == 0.0 then (if Abs(price - median) > 0.0 then Infinite else Finite(0.0))
    else Finite((price - median) / (MAD_SCALE * mad))
  }

  function DeviationBps(price: real, median: real): real {
    if median != 0.0 then (price - median) / median * 10000.0 else 0.0
  }

  predicate Flagged(sub: Submission, median: real, mad: real, config: Config) {
    var z := ZScore(sub.price as real, median, mad);
    && (z.Infinite? || Abs(z.z) >= config.madThreshold)
    && Abs(DeviationBps(sub.price as real, median)) >= config.minDeviationBps
  }

  function AlertOf(ledger: int, asset: string, sub: Submission, median: real, mad: real): Alert {
    Alert(asset, sub.source, sub.price, median, ZScore(sub.price as real, median, mad),
          DeviationBps(sub.price as real, median), sub.timestamp, ledger)
  }

  /** The alerts of a round whose median and MAD are known, in submission order. */
  function AlertsOf(asset: string, ledger: int, subs: seq<Submission>, median: real, mad: real, config: Config): (alerts: seq<Alert>)
    ensures |alerts| <= |subs|
  {
    if subs == [] then [] else
    var n := |subs| - 1;
    AlertsOf(asset, ledger, subs[..n], median, mad, config)
    + (if Flagged(subs[n], median, mad, config) then [AlertOf(ledger, asset, subs[n], median, mad)] else [])
  }

  lemma AlertsOfStep(asset: string, ledger: int, subs: seq<Submission>, i: nat, median: real, mad: real, config: Config)
    requires i < |subs|
    ensures AlertsOf(asset, ledger, subs[..i + 1], median, mad, config) == AlertsOf(asset, ledger, subs[..i], median, mad, config)
            + (if Flagged(subs[i], median, mad, config) then [AlertOf(ledger, asset, subs[i], median, mad)] else [])
  {
    hide Flagged, AlertOf;
    assert subs[..i + 1][..i] == subs[..i];
  }

  function ScoreRound(asset: string, ledger: int, subs: seq<Submission>, config: Config): seq<Alert> {
    if |subs| < config.minPeers || subs == [] then [] else
    var median := StatMedian(Prices(subs));
    var mad := StatMedian(Deviations(subs, median));
    AlertsOf(asset, ledger, subs, median, mad, config)
  }

  /** The loop of `score_round`. The code has no median of an empty round to offer either. */
  method ScoreRoundInOrder(asset: string, ledger: int, subs: seq<Submission>, config: Config) returns (alerts: seq<Alert>)
    requires subs != [] || config.minPeers > 0
    ensures alerts == ScoreRound(asset, ledger, subs, config)
  {
    hide AlertsOf, StatMedian;
    alerts := [];
    if |subs| < config.minPeers { return; }
    var median := StatMedian(Prices(subs));
    var devs := Deviations(subs, median);
    var mad := StatMedian(devs);
    for i := 0 to |subs|
      invariant alerts == AlertsOf(asset, ledger, subs[..i], median, mad, config)
    {
      AlertsOfStep(asset, ledger, subs, i, median, mad, config);
      var price := subs[i].price as real;
      var z := if mad == 0.0 then (if devs[i] > 0.0 then Infinite else Finite(0.0)) else Finite((price - median) / (MAD_SCALE * mad));
      var bps := DeviationBps(price, median);
      if (z.Infinite? || Abs(z.z) >= config.madThreshold) && Abs(bps) >= config.minDeviationBps {
        alerts := alerts + [Alert(asset, subs[i].source, subs[i].price, median, z, bps, subs[i].timestamp, ledger)];
      }
    }
    assert subs[..|subs|] == subs;
  }

  // -- at most half a round -------------------------------------------------

  /** At least half the values (rounded up) are at or below their median. */
  lemma HalfAtOrBelow(xs: seq<real>)
    requires xs != []
    ensures CountLe(xs, StatMedian(xs), RealLe) >= |xs| - |xs| / 2
  {
    var n, m := |xs|, StatMedian(xs);
    SortIsAscending(xs, RealLe);
    hide Sort, CountLe;
    if n % 2 == 1 {
      OrderStatistic(xs, n / 2, m, RealLe);
    } else {
      OrderStatistic(xs, n / 2 - 1, m, RealLe);
    }
  }

  lemma DividesBack(x: real, d: real)
    requires d > 0.0
    ensures Abs(x / d) * d == Abs(x)
  {
    assert x / d * d == x;
    if x >= 0.0 {
      assert x / d >= 0.0;
    } else {
      assert x / d < 0.0;
    }
  }

  /** With a threshold over one MAD, only submissions further out than the MAD are flagged. */
  lemma FlaggedIsFarOut(sub: Submission, median: real, mad: real, config: Config)
    requires config.madThreshold * MAD_SCALE > 1.0 && mad >= 0.0
    requires Flagged(sub, median, mad, config)
    ensures Abs(sub.price as real - median) > mad
  {
    var x, t, d := sub.price as real - median, config.madThreshold, MAD_SCALE * mad;
    if mad > 0.0 {
      assert ZScore(sub.price as real, median, mad) == Finite(x / d);
      DividesBack(x, d);
      Outweighs(Abs(x / d), t, mad, d);
    } else {
      assert t > 0.0;
    }
  }

  lemma Outweighs(z: real, t: real, mad: real, d: real)
    requires z >= t && t * MAD_SCALE > 1.0 && mad > 0.0 && d == MAD_SCALE * mad
    ensures z * d > mad
  {
    var scaled := z * MAD_SCALE;
    assert scaled > 1.0;
    calc {
      z * d;
      scaled * mad;
    > { Grows(scaled, mad); }
      mad;
    }
  }

  lemma Grows(a: real, x: real)
    requires a > 1.0 && x > 0.0
    ensures a * x > x
  {}

  lemma {:induction false} AlertsLeaveTheNear(asset: string, ledger: int, subs: seq<Submission>, median: real, mad: real, config: Config)
    requires config.madThreshold * MAD_SCALE > 1.0 && mad >= 0.0
    ensures |AlertsOf(asset, ledger, subs, median, mad, config)| + CountLe(Deviations(subs, median), mad, RealLe) <= |subs|
    decreases |subs|
  {
    if subs != [] {
      var n := |subs| - 1;
      AlertsLeaveTheNear(asset, ledger, subs[..n], median, mad, config);
      var last := Abs(subs[n].price as real - median);
      assert Deviations(subs, median) == Deviations(subs[..n], median) + [last];
      CountLeConcat(Deviations(subs[..n], median), [last], mad, RealLe);
      if Flagged(subs[n], median, mad, config) {
        FlaggedIsFarOut(subs[n], median, mad, config);
      }
    }
  }

  lemma MadIsNonNegative(subs: seq<Submission>, median: real)
    requires subs != []
    ensures StatMedian(Deviations(subs, median)) >= 0.0
  {
    var devs := Deviations(subs, median);
    var n := |devs|;
    SortAddsNothing(devs, n / 2, RealLe);
    if n % 2 == 0 {
      SortAddsNothing(devs, n / 2 - 1, RealLe);
    }
  }

  /** Never more than half of a round is flagged, spread or no spread. */
  lemma AtMostHalf(asset: string, ledger: int, subs: seq<Submission>, config: Config)
    requires config.madThreshold * MAD_SCALE > 1.0
    ensures |ScoreRound(asset, ledger, subs, config)| <= |subs| / 2
  {
    if !(|subs| < config.minPeers || subs == []) {
      var median := StatMedian(Prices(subs));
      var devs := Deviations(subs, median);
      MadIsNonNegative(subs, median);
      HalfAtOrBelow(devs);
      AlertsLeaveTheNear(asset, ledger, subs, median, StatMedian(devs), config);
    }
  }

  // -- and not with a lower threshold ---------------------------------------

  /** `m` submissions at 1 - k and `m` at 1 + k. */
  function Split(m: nat, k: nat): seq<Submission> {
    seq(2 * m, i => Submission("A", "S", if i < m then 1 - k else 1 + k, 1, 1))
  }

  lemma {:induction false} CountConstant(xs: seq<real>, v: real, x: real)
    requires forall i | 0 <= i < |xs| :: xs[i] == v
    ensures CountLe(xs, x, RealLe) == if v <= x then |xs| else 0
  {
    if xs != [] {
      CountConstant(xs[1..], v, x);
    }
  }

  lemma MedianOfConstant(xs: seq<real>, v: real)
    requires xs != [] && forall i | 0 <= i < |xs| :: xs[i] == v
    ensures StatMedian(xs) == v
  {
    var n := |xs|;
    SortAddsNothing(xs, n / 2, RealLe);
    if n % 2 == 0 {
      SortAddsNothing(xs, n / 2 - 1, RealLe);
    }
  }

  lemma CountOfSplit(m: nat, k: nat, x: real)
    ensures var xs := Prices(Split(m, k));
            |xs| == 2 * m && CountLe(xs, x, RealLe) == (if (1 - k) as real <= x then m else 0) + (if (1 + k) as real <= x then m else 0)
  {
    hide CountLe;
    var xs := Prices(Split(m, k));
    assert xs == xs[..m] + xs[m..];
    CountLeConcat(xs[..m], xs[m..], x, RealLe);
    CountConstant(xs[..m], (1 - k) as real, x);
    CountConstant(xs[m..], (1 + k) as real, x);
  }

  lemma MedianOfSplit(m: nat, k: nat)
    requires m > 0
    ensures StatMedian(Prices(Split(m, k))) == 1.0
  {
    hide Prices, Split, Sort, CountLe;
    var xs := Prices(Split(m, k));
    var lo, hi := (1 - k) as real, (1 + k) as real;
    forall x ensures |xs| == 2 * m && CountLe(xs, x, RealLe) == (if lo <= x then m else 0) + (if hi <= x then m else 0) {
      CountOfSplit(m, k, x);
    }
    var s := Sort(xs, RealLe);
    OrderStatistic(xs, m - 1, s[m - 1], RealLe);
    OrderStatistic(xs, m - 1, lo, RealLe);
    OrderStatistic(xs, m, s[m], RealLe);
    OrderStatistic(xs, m, hi, RealLe);
  }

  lemma {:induction false} AllAlert(asset: string, ledger: int, subs: seq<Submission>, median: real, mad: real, config: Config)
    requires forall i | 0 <= i < |subs| :: Flagged(subs[i], median, mad, config)
    ensures |AlertsOf(asset, ledger, subs, median, mad, config)| == |subs|
    decreases |subs|
  {
    if subs != [] {
      AllAlert(asset, ledger, subs[..|subs| - 1], median, mad, config);
    }
  }

  lemma SplitDeviates(m: nat, k: nat)
    ensures forall i | 0 <= i < 2 * m :: Deviations(Split(m, k), 1.0)[i] == k as real
  {}

  /** A lower threshold flags every submission of some round, whatever the other two gates are set to. */
  lemma LowThresholdFlagsAll(config: Config) returns (subs: seq<Submission>)
    requires config.madThreshold * MAD_SCALE <= 1.0
    ensures subs != [] && |ScoreRound("A", 1, subs, config)| == |subs|
  {
    var m: nat := if config.minPeers > 1 then config.minPeers else 1;
    var k: nat := if config.minDeviationBps > 10000.0 then config.minDeviationBps.Floor else 1;
    assert k >= 1 && config.minDeviationBps <= k as real * 10000.0;
    subs := Split(m, k);
    forall i | 0 <= i < |subs| ensures Flagged(subs[i], 1.0, k as real, config) {
      SplitIsFlagged(subs[i], k, config);
    }
    hide StatMedian, Flagged, AlertsOf, Split, Deviations, Prices;
    MedianOfSplit(m, k);
    SplitDeviates(m, k);
    MedianOfConstant(Deviations(subs, 1.0), k as real);
    AllAlert("A", 1, subs, 1.0, k as real, config);
  }

  lemma SplitIsFlagged(sub: Submission, k: nat, config: Config)
    requires sub.price == 1 - k || sub.price == 1 + k
    requires k >= 1 && config.madThreshold * MAD_SCALE <= 1.0 && config.minDeviationBps <= k as real * 10000.0
    ensures Flagged(sub, 1.0, k as real, config)
  {
    var x, d := sub.price as real - 1.0, MAD_SCALE * k as real;
    ScaleOut(k as real, d);
    assert x == k as real || x == -(k as real);
    assert Abs(x / d) * MAD_SCALE == 1.0 by {
      Negated(k as real, d);
      assert k as real / d > 0.0;
    }
    BelowReciprocal(config.madThreshold, Abs(x / d));
  }

  lemma ScaleOut(k: real, d: real)
    requires k > 0.0 && d == MAD_SCALE * k
    ensures k / d * MAD_SCALE == 1.0 && k / d > 0.0
  {
    var q := k / d;
    var a := q * MAD_SCALE;
    assert q * d == k;
    Reassociate(q, a, k, d);
    CancelFactor(a, k);
    assert q > 0.0;
  }

  lemma Reassociate(q: real, a: real, k: real, d: real)
    requires d == MAD_SCALE * k && a == q * MAD_SCALE
    ensures q * d == a * k
  {
    assert q * (MAD_SCALE * k) == (q * MAD_SCALE) * k;
  }

  lemma CancelFactor(a: real, k: real)
    requires k > 0.0 && a * k == k
    ensures a == 1.0
  {
    if a < 1.0 {
      Shrinks(1.0 - a, k);
    } else if a > 1.0 {
      Shrinks(a - 1.0, k);
    }
  }

  lemma Shrinks(gap: real, k: real)
    requires gap > 0.0 && k > 0.0
    ensures gap * k > 0.0
  {}

  lemma Negated(k: real, d: real)
    requires d > 0.0
    ensures -k / d == -(k / d)
  {}

  lemma BelowReciprocal(t: real, z: real)
    requires t * MAD_SCALE <= 1.0 && z * MAD_SCALE == 1.0
    ensures z >= t
  {}

  /** The exact bound: every round keeps at least half its submissions unflagged if and
      only if the threshold times the MAD scale exceeds one. */
  lemma AtMostHalfExactly(config: Config)
    ensures config.madThreshold * MAD_SCALE > 1.0 <==>
            forall asset, ledger, subs :: |ScoreRound(asset, ledger, subs, config)| <= |subs| / 2
  {
    if config.madThreshold * MAD_SCALE > 1.0 {
      forall asset, ledger, subs ensures |ScoreRound(asset, ledger, subs, config)| <= |subs| / 2 {
        AtMostHalf(asset, ledger, subs, config);
      }
    } else {
      var subs := LowThresholdFlagsAll(config);
    }
  }
}
