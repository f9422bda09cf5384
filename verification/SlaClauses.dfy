/** What each clause of the agreement raises, in terms of the rounds published. */
module SlaClauses {
  import opened Sorting
  import opened Medians
  import opened Strings
  import opened SlaMonitors

  ghost predicate Is(v: Violation, clause: string, r: Round, source: string, value: real) {
    v == Violation(clause, r.asset, r.ledger, source, value)
  }

  /** The median of what was counted; `MedianByCounting` and `PortsAgree` say what that is. */
  ghost predicate CountedMedian(r: Round, m: int) {
    exists prices: seq<int> ::
      && |prices| == |r.counted| && (forall i | 0 <= i < |prices| :: prices[i] == r.counted[i].value)
      && m == Median(prices)
  }

  // -- one round ------------------------------------------------------------

  ghost predicate Misstated(r: Round, v: Violation) {
    exists m :: CountedMedian(r, m) && m != r.publishedPrice && Is(v, "9.1", r, "", (r.publishedPrice - m) as real)
  }

  ghost predicate TooFew(r: Round, cfg: Config, v: Violation) {
    |r.counted| < cfg.minSources && Is(v, "2", r, "", |r.counted| as real)
  }

  ghost predicate NotFresh(r: Round, cfg: Config, v: Violation) {
    !r.fresh_ && Is(v, "1.2", r, "", cfg.maxPriceAgeSecs as real)
  }

  ghost predicate SkewedBy(r: Round, sample: Sample, cfg: Config, v: Violation) {
    var skew := if sample.value >= r.timestamp then sample.value - r.timestamp else r.timestamp - sample.value;
    skew > cfg.timestampThresholdSecs && Is(v, "1.3", r, sample.source, skew as real)
  }

  ghost predicate Skewed(r: Round, cfg: Config, v: Violation) {
    exists i :: 0 <= i < |r.submissionTimestamps| && SkewedBy(r, r.submissionTimestamps[i], cfg, v)
  }

  /** `dev` is how far the price is from the reference median, in whole basis points rounded down; all of
      them when the reference is zero and the price is not. */
  ghost predicate Deviates(r: Round, dev: int) {
    && r.referencePrices != []
    && var ref := Median(r.referencePrices);
       var gap, size := if r.publishedPrice >= ref then r.publishedPrice - ref else ref - r.publishedPrice, if ref >= 0 then ref else -ref;
       if ref == 0 then dev == (if r.publishedPrice == 0 then 0 else 10_000)
       else dev * size <= gap * 10_000 < (dev + 1) * size
  }

  ghost predicate Disagrees(r: Round, cfg: Config, v: Violation) {
    exists dev :: Deviates(r, dev) &&
      ((dev > cfg.maxDeviationBps && Is(v, "3", r, "", dev as real)) || (dev > 2 * cfg.maxDeviationBps && Is(v, "6.3", r, "", dev as real)))
  }

  ghost predicate PausedTooLong(r: Round, cfg: Config, v: Violation) {
    r.pausedSeconds > cfg.maxPauseSecs && Is(v, "4.2", r, "", r.pausedSeconds as real)
  }

  ghost predicate Unadmitted(r: Round, v: Violation) {
    exists i :: 0 <= i < |r.counted| && r.counted[i].source !in r.admitted && Is(v, "9.5", r, r.counted[i].source, 1.0)
  }

  lemma {:induction false} SkewTells(r: Round, samples: seq<Sample>, cfg: Config, v: Violation)
    ensures v in SkewChecks(r, samples, cfg) <==> exists i :: 0 <= i < |samples| && SkewedBy(r, samples[i], cfg, v)
  {
    if samples != [] {
      var n := |samples| - 1;
      SkewTells(r, samples[..n], cfg, v);
      assert SkewedBy(r, samples[n], cfg, v) <==>
             AbsInt(samples[n].value - r.timestamp) > cfg.timestampThresholdSecs
             && v == V("1.3", r, AbsInt(samples[n].value - r.timestamp) as real).(source := samples[n].source);
      hide SkewedBy;
      if i :| 0 <= i < |samples| && SkewedBy(r, samples[i], cfg, v) {
        if i < n {
          assert samples[..n][i] == samples[i];
        }
      }
      if i :| 0 <= i < n && SkewedBy(r, samples[..n][i], cfg, v) {
        assert samples[i] == samples[..n][i];
      }
    }
  }

  lemma {:induction false} InfluenceTells(r: Round, samples: seq<Sample>, v: Violation)
    ensures v in InfluenceChecks(r, samples) <==>
            exists i :: 0 <= i < |samples| && samples[i].source !in r.admitted && Is(v, "9.5", r, samples[i].source, 1.0)
  {
    if samples != [] {
      var n := |samples| - 1;
      InfluenceTells(r, samples[..n], v);
      if i :| 0 <= i < |samples| && samples[i].source !in r.admitted && Is(v, "9.5", r, samples[i].source, 1.0) {
        if i < n {
          assert samples[..n][i] == samples[i];
        }
      }
      if v in InfluenceChecks(r, samples[..n]) {
        var i :| 0 <= i < n && samples[..n][i].source !in r.admitted && Is(v, "9.5", r, samples[..n][i].source, 1.0);
        assert samples[i] == samples[..n][i];
      }
    }
  }

  lemma DeviationTells(a: int, b: int)
    ensures b == 0 ==> DeviationBps(a, b) == if a == 0 then 0 else 10_000
    ensures b != 0 ==> var size := AbsInt(b); DeviationBps(a, b) * size <= AbsInt(a - b) * 10_000 < (DeviationBps(a, b) + 1) * size
  {
    if b != 0 {
      DivisionTells(AbsInt(a - b) * BPS, AbsInt(b));
    }
  }

  lemma DivisionTells(x: int, d: int)
    requires d > 0
    ensures x / d * d <= x < (x / d + 1) * d
  {}

  lemma QuotientIsOne(x: int, d: int, a: int, b: int)
    requires d > 0 && a * d <= x < (a + 1) * d && b * d <= x < (b + 1) * d
    ensures a == b
  {
    if a < b {
      Scaled(a + 1, b, d);
    } else if b < a {
      Scaled(b + 1, a, d);
    }
  }

  lemma Scaled(a: int, b: int, d: int)
    requires d > 0 && a <= b
    ensures a * d <= b * d
  {}

  lemma ReferenceTells(r: Round, cfg: Config, v: Violation)
    ensures v in ReferenceChecks(r, cfg) <==> Disagrees(r, cfg, v)
  {
    hide Median, RecomputeMedian;
    if r.referencePrices != [] {
      var ref := RecomputeMedian(r.referencePrices);
      PortsAgree(r.referencePrices);
      DeviationTells(r.publishedPrice, ref);
      var dev := DeviationBps(r.publishedPrice, ref);
      assert Deviates(r, dev);
      forall other | Deviates(r, other) ensures other == dev {
        if ref != 0 {
          QuotientIsOne(AbsInt(r.publishedPrice - ref) * 10_000, AbsInt(ref), dev, other);
        }
      }
    }
  }

  lemma CountedMedianIs(r: Round, m: int)
    ensures CountedMedian(r, m) <==> m == RecomputeMedian(Values(r.counted))
  {
    hide Median, RecomputeMedian;
    PortsAgree(Values(r.counted));
    if CountedMedian(r, m) {
      var prices: seq<int> :| |prices| == |r.counted| && (forall i | 0 <= i < |prices| :: prices[i] == r.counted[i].value) && m == Median(prices);
      assert prices == Values(r.counted);
    }
  }

  /** What a round raises by itself. */
  ghost predicate RaisedByRound(r: Round, cfg: Config, v: Violation) {
    || Misstated(r, v) || TooFew(r, cfg, v) || NotFresh(r, cfg, v) || Skewed(r, cfg, v)
    || Disagrees(r, cfg, v) || PausedTooLong(r, cfg, v) || Unadmitted(r, v)
  }

  lemma RoundTells(r: Round, cfg: Config, v: Violation)
    ensures v in RoundChecks(r, cfg) <==> RaisedByRound(r, cfg, v)
  {
    hide Median, RecomputeMedian, ReferenceChecks, SkewChecks, InfluenceChecks, Disagrees;
    SkewTells(r, r.submissionTimestamps, cfg, v);
    InfluenceTells(r, r.counted, v);
    ReferenceTells(r, cfg, v);
    MisstatedTells(r, v);
  }

  lemma MisstatedTells(r: Round, v: Violation)
    ensures var m := RecomputeMedian(Values(r.counted));
            Misstated(r, v) <==> m != r.publishedPrice && Is(v, "9.1", r, "", (r.publishedPrice - m) as real)
  {
    hide RecomputeMedian, CountedMedian;
    forall m ensures CountedMedian(r, m) <==> m == RecomputeMedian(Values(r.counted)) {
      CountedMedianIs(r, m);
    }
    if m :| CountedMedian(r, m) && m != r.publishedPrice && Is(v, "9.1", r, "", (r.publishedPrice - m) as real) {
      assert m == RecomputeMedian(Values(r.counted));
    }
    assert CountedMedian(r, RecomputeMedian(Values(r.counted)));
  }

  // -- the rounds before ----------------------------------------------------

  /** The positions of the last `n` rounds of the asset in the run. */
  ghost function Recent(run: seq<Round>, asset: string, n: int): set<nat> {
    set i: nat | i < |run| && run[i].asset == asset && |LaterOnes(run, asset, i)| < n
  }

  ghost function LaterOnes(run: seq<Round>, asset: string, i: nat): set<nat> {
    set j: nat | i < j < |run| && run[j].asset == asset
  }

  /** As many rounds as asked for, all at one price, not all counted from the same samples. */
  ghost predicate Flat(run: seq<Round>, r: Round, cfg: Config, v: Violation) {
    var recent := Recent(run, r.asset, cfg.flatlineRounds);
    && |recent| == cfg.flatlineRounds
    && (forall i, j | i in recent && j in recent :: run[i].publishedPrice == run[j].publishedPrice)
    && (exists i, j | i in recent && j in recent :: multiset(run[i].counted) != multiset(run[j].counted))
    && Is(v, "9.2", r, "", cfg.flatlineRounds as real)
  }

  /** An admitted source that none of the rounds looked at counted. */
  ghost predicate Absent(run: seq<Round>, r: Round, cfg: Config, v: Violation) {
    var recent := Recent(run, r.asset, cfg.participationWindow);
    && |recent| == cfg.participationWindow
    && v.source in r.admitted
    && (forall i | i in recent :: forall j | 0 <= j < |run[i].counted| :: run[i].counted[j].source != v.source)
    && Is(v, "9.4", r, v.source, cfg.participationWindow as real)
  }

  /** The stale rounds among the last `n` of the run, whatever their asset. */
  ghost function StaleAmong(run: seq<Round>, n: int): set<nat> {
    set i: nat | |run| - n <= i < |run| && !run[i].fresh_
  }

  ghost function Span(run: seq<Round>, n: int): int { if n < |run| then n else |run| }

  /** What a burn rate of `x` over `size` rounds amounts to in stale rounds. */
  ghost function Rounds(x: real, budget: real, size: int): real { x * budget * size as real }

  /** More stale rounds among the last `n` than the budget times the threshold allows. */
  ghost predicate Burns(run: seq<Round>, n: int, cfg: Config) {
    var budget := 1.0 - cfg.freshnessSlo;
    if budget <= 0.0 then 0.0 > cfg.burnThreshold
    else |StaleAmong(run, n)| as real > Rounds(cfg.burnThreshold, budget, Span(run, n))
  }

  /** The violation carries the rate of the long window. */
  ghost predicate Burnt(run: seq<Round>, r: Round, cfg: Config, v: Violation) {
    var budget := 1.0 - cfg.freshnessSlo;
    && Burns(run, cfg.burnShortWindow, cfg) && Burns(run, cfg.burnLongWindow, cfg)
    && Is(v, "4.1", r, "", v.value)
    && (if budget <= 0.0 then v.value == 0.0 else Rounds(v.value, budget, Span(run, cfg.burnLongWindow)) == |StaleAmong(run, cfg.burnLongWindow)| as real)
  }

  // -- the burn windows -----------------------------------------------------

  ghost function StaleFrom(run: seq<Round>, from: nat): set<nat> {
    set i: nat | from <= i < |run| && !run[i].fresh_
  }

  lemma OneRoundMore(run: seq<Round>, from: nat)
    requires from < |run|
    ensures var n := |run| - 1;
            && |StaleFrom(run, from)| == |StaleFrom(run[..n], from)| + (if run[n].fresh_ then 0 else 1)
            && Stale(run)[from..] == Stale(run[..n])[from..] + [!run[n].fresh_]
  {
    var n := |run| - 1;
    assert StaleFrom(run, from) == StaleFrom(run[..n], from) + if run[n].fresh_ then {} else {n};
    hide StaleFrom;
    LastRoundMore(run, from);
  }

  lemma LastRoundMore(run: seq<Round>, from: nat)
    requires from < |run|
    ensures Stale(run)[from..] == Stale(run[..|run| - 1])[from..] + [!run[|run| - 1].fresh_]
  {}

  lemma CountOneMore(bad: seq<bool>, b: bool)
    ensures CountBad(bad + [b]) == CountBad(bad) + if b then 1 else 0
  {
    assert (bad + [b])[..|bad|] == bad;
  }

  lemma {:induction false} StaleCounts(run: seq<Round>, from: nat)
    requires from <= |run|
    ensures CountBad(Stale(run)[from..]) == |StaleFrom(run, from)|
    decreases |run|
  {
    if from == |run| {
      assert StaleFrom(run, from) == {} && Stale(run)[from..] == [];
    } else {
      hide CountBad, StaleFrom;
      var n := |run| - 1;
      StaleCounts(run[..n], from);
      OneRoundMore(run, from);
      CountOneMore(Stale(run[..n])[from..], !run[n].fresh_);
    }
  }

  lemma TailCounts(run: seq<Round>, n: int)
    requires n > 0
    ensures CountBad(Tail(Stale(run), n)) == |StaleAmong(run, n)|
  {
    var from := if n < |run| then |run| - n else 0;
    StaleCounts(run, from);
    assert Tail(Stale(run), n) == Stale(run)[from..];
    assert StaleAmong(run, n) == StaleFrom(run, from);
  }

  ghost function RateOf(count: nat, size: nat, budget: real): real
    requires size > 0 && budget > 0.0
  {
    count as real / size as real / budget
  }

  lemma RateTells(count: nat, size: nat, budget: real, threshold: real, x: real)
    requires size > 0 && budget > 0.0
    ensures var rate := RateOf(count, size, budget);
            && (rate > threshold <==> count as real > Rounds(threshold, budget, size))
            && (Rounds(x, budget, size) == count as real <==> x == rate)
  {
    var rate := count as real / size as real / budget;
    var share := count as real / size as real;
    assert share * size as real == count as real && rate * budget == share;
    if rate > threshold {
      Exceeds(rate, threshold, budget);
      Exceeds(rate * budget, threshold * budget, size as real);
    } else {
      NotExceeds(rate, threshold, budget);
      NotExceeds(rate * budget, threshold * budget, size as real);
    }
    if x > rate {
      Exceeds(x, rate, budget);
      Exceeds(x * budget, rate * budget, size as real);
    } else if x < rate {
      Exceeds(rate, x, budget);
      Exceeds(rate * budget, x * budget, size as real);
    }
  }

  lemma Exceeds(a: real, b: real, f: real)
    requires a > b && f > 0.0
    ensures a * f > b * f
  {
    assert (a - b) * f > 0.0;
  }

  lemma NotExceeds(a: real, b: real, f: real)
    requires a <= b && f > 0.0
    ensures a * f <= b * f
  {
    assert (b - a) * f >= 0.0;
  }

  lemma BurnRateTells(run: seq<Round>, n: int, cfg: Config, x: real)
    requires n > 0 && run != []
    ensures var budget := 1.0 - cfg.freshnessSlo;
            var rate := BurnRate(Tail(Stale(run), n), budget);
            && (rate > cfg.burnThreshold <==> Burns(run, n, cfg))
            && (x == rate <==> if budget <= 0.0 then x == 0.0 else Rounds(x, budget, Span(run, n)) == |StaleAmong(run, n)| as real)
  {
    var budget, bad := 1.0 - cfg.freshnessSlo, Tail(Stale(run), n);
    assert |bad| == Span(run, n) > 0;
    TailCounts(run, n);
    hide Tail, Stale, CountBad, StaleAmong, Span, Rounds;
    if budget > 0.0 {
      BurnRateIs(bad, budget);
      hide BurnRate, RateOf, Rounds;
      RateTells(|StaleAmong(run, n)|, Span(run, n), budget, cfg.burnThreshold, x);
    }
  }

  lemma BurnRateIs(bad: seq<bool>, budget: real)
    requires bad != [] && budget > 0.0
    ensures BurnRate(bad, budget) == RateOf(CountBad(bad), |bad|, budget)
  {}

  lemma BurnTells(run: seq<Round>, r: Round, cfg: Config, v: Violation)
    requires run != [] && cfg.burnShortWindow > 0 && cfg.burnLongWindow > 0
    ensures v in BurnCheck(Tail(Stale(run), cfg.burnShortWindow), Tail(Stale(run), cfg.burnLongWindow), r, cfg) <==> Burnt(run, r, cfg, v)
  {
    hide Tail, Stale, BurnRate, Burns, StaleAmong, Rounds;
    BurnRateTells(run, cfg.burnShortWindow, cfg, v.value);
    BurnRateTells(run, cfg.burnLongWindow, cfg, v.value);
  }

  // -- the rounds of an asset -----------------------------------------------

  /** Climbing positions: those of the asset's rounds, and no others. */
  ghost predicate Places(run: seq<Round>, asset: string, at: seq<nat>) {
    && (forall i, j | 0 <= i < j < |at| :: at[i] < at[j])
    && (forall i | 0 <= i < |at| :: at[i] < |run| && run[at[i]].asset == asset)
    && (forall x: nat | x < |run| && run[x].asset == asset :: x in at)
  }

  lemma OnePlaceMore(run: seq<Round>, asset: string, before: seq<nat>)
    requires run != [] && Places(run[..|run| - 1], asset, before)
    ensures Places(run, asset, before + if run[|run| - 1].asset == asset then [|run| - 1] else [])
  {
    var n := |run| - 1;
    var at := before + if run[n].asset == asset then [n] else [];
    forall x: nat | x < |run| && run[x].asset == asset ensures x in at {
      if x < n {
        assert run[..n][x] == run[x];
      }
    }
  }

  lemma {:induction false} AssetPlaces(run: seq<Round>, asset: string) returns (at: seq<nat>)
    ensures Places(run, asset, at)
    ensures |OfAsset(run, asset)| == |at| && forall i | 0 <= i < |at| :: OfAsset(run, asset)[i] == run[at[i]]
  {
    at := [];
    if run != [] {
      var n := |run| - 1;
      var before := AssetPlaces(run[..n], asset);
      OnePlaceMore(run, asset, before);
      AssetGrows(run[..n], run[n], asset);
      assert run[..n] + [run[n]] == run;
      at := before + if run[n].asset == asset then [n] else [];
      hide OfAsset;
    }
  }

  ghost function From(at: seq<nat>, k: nat): set<nat> {
    set j | k <= j < |at| :: at[j]
  }

  lemma {:induction false} FromCounts(at: seq<nat>, k: nat)
    requires k <= |at| && forall i, j | 0 <= i < j < |at| :: at[i] < at[j]
    ensures |From(at, k)| == |at| - k
    decreases |at| - k
  {
    if k < |at| {
      FromCounts(at, k + 1);
      assert From(at, k) == {at[k]} + From(at, k + 1);
    } else {
      assert From(at, k) == {};
    }
  }

  lemma RecentIsFrom(run: seq<Round>, asset: string, at: seq<nat>, n: int)
    requires Places(run, asset, at) && n > 0
    ensures var k := if n < |at| then |at| - n else 0;
            Recent(run, asset, n) == From(at, k) && |Recent(run, asset, n)| == |at| - k
  {
    var k := if n < |at| then |at| - n else 0;
    forall i | 0 <= i < |at| ensures |LaterOnes(run, asset, at[i])| == |at| - 1 - i {
      forall x: nat ensures x in LaterOnes(run, asset, at[i]) <==> x in From(at, i + 1) {
        if x in LaterOnes(run, asset, at[i]) {
          var j :| 0 <= j < |at| && at[j] == x;
          assert j > i;
        }
      }
      assert LaterOnes(run, asset, at[i]) == From(at, i + 1);
      FromCounts(at, i + 1);
    }
    forall x: nat ensures x in Recent(run, asset, n) <==> x in From(at, k) {
      if x < |run| && run[x].asset == asset {
        var j :| 0 <= j < |at| && at[j] == x;
        assert |LaterOnes(run, asset, at[j])| == |at| - 1 - j;
        assert x in From(at, k) <==> j >= k;
      }
    }
    assert Recent(run, asset, n) == From(at, k);
    FromCounts(at, k);
  }

  lemma SampleOrder(s: seq<Sample>)
    ensures TotalPreorder(SampleLe) && Antisymmetric(s, SampleLe)
  {
    forall a: Sample, b: Sample ensures SampleLe(a, b) || SampleLe(b, a) { Total(a.source, b.source); }
    forall a: Sample, b: Sample, c: Sample | SampleLe(a, b) && SampleLe(b, c) ensures SampleLe(a, c) {
      if a.source != b.source && b.source != c.source {
        Transitive(a.source, b.source, c.source);
        if a.source == c.source {
          Antisymmetry(a.source, b.source);
        }
      }
    }
    forall a: Sample, b: Sample | SampleLe(a, b) && SampleLe(b, a) ensures a == b {
      if a.source != b.source {
        Antisymmetry(a.source, b.source);
      }
    }
  }

  lemma InputsTell(a: Round, b: Round)
    ensures Inputs(a) == Inputs(b) <==> multiset(a.counted) == multiset(b.counted)
  {
    hide SampleLe, Sort;
    SampleOrder(a.counted);
    if multiset(a.counted) == multiset(b.counted) {
      SortIgnoresOrder(a.counted, b.counted, SampleLe);
    }
    assert multiset(Sort(a.counted, SampleLe)) == multiset(a.counted);
    assert multiset(Sort(b.counted, SampleLe)) == multiset(b.counted);
  }

  /** `tail` is the rounds of `run` at `at`, whose places are those in `recent`. */
  ghost predicate At(run: seq<Round>, tail: seq<Round>, at: seq<nat>, recent: set<nat>) {
    && |tail| == |at|
    && (forall i | 0 <= i < |at| :: at[i] < |run| && tail[i] == run[at[i]] && at[i] in recent)
    && (forall x | x in recent :: x in at)
  }

  /** The tail of an asset's rounds, as places in the run: the recent ones. */
  lemma TailPlaces(run: seq<Round>, asset: string, n: int) returns (at: seq<nat>)
    requires n > 0
    ensures |Recent(run, asset, n)| == |at| == |Tail(OfAsset(run, asset), n)|
    ensures |at| == n <==> |OfAsset(run, asset)| >= n
    ensures At(run, Tail(OfAsset(run, asset), n), at, Recent(run, asset, n))
  {
    hide OfAsset, Recent;
    var all := AssetPlaces(run, asset);
    var k := if n < |all| then |all| - n else 0;
    RecentIsFrom(run, asset, all, n);
    at := all[k..];
    forall x | x in Recent(run, asset, n) ensures x in at {
      var j :| k <= j < |all| && all[j] == x;
      assert at[j - k] == x;
    }
  }

  lemma FlatTells(run: seq<Round>, r: Round, cfg: Config, v: Violation)
    requires cfg.flatlineRounds > 0
    ensures v in FlatlineCheck(OfAsset(run, r.asset), r, cfg) <==> Flat(run, r, cfg, v)
  {
    hide OfAsset, Recent, Inputs, Tail;
    var n := cfg.flatlineRounds;
    var hist, recent := OfAsset(run, r.asset), Recent(run, r.asset, n);
    var at := TailPlaces(run, r.asset, n);
    var tail := Tail(hist, n);
    if |hist| >= n {
      OnePrice(run, tail, at, recent);
      InputsMove(run, tail, at, recent);
    }
  }

  lemma OnePrice(run: seq<Round>, tail: seq<Round>, at: seq<nat>, recent: set<nat>)
    requires At(run, tail, at, recent) && tail != []
    ensures (forall x | 0 <= x < |tail| :: tail[x].publishedPrice == tail[0].publishedPrice)
            <==> forall i, j | i in recent && j in recent :: run[i].publishedPrice == run[j].publishedPrice
  {
    if forall x | 0 <= x < |tail| :: tail[x].publishedPrice == tail[0].publishedPrice {
      forall i, j | i in recent && j in recent ensures run[i].publishedPrice == run[j].publishedPrice {
        var x :| 0 <= x < |at| && at[x] == i;
        var y :| 0 <= y < |at| && at[y] == j;
        assert tail[x].publishedPrice == tail[y].publishedPrice;
      }
    }
  }

  lemma InputsMove(run: seq<Round>, tail: seq<Round>, at: seq<nat>, recent: set<nat>)
    requires At(run, tail, at, recent) && tail != []
    ensures (exists x | 0 <= x < |tail| :: Inputs(tail[x]) != Inputs(tail[0]))
            <==> exists i, j | i in recent && j in recent :: multiset(run[i].counted) != multiset(run[j].counted)
  {
    hide Inputs;
    if x :| 0 <= x < |tail| && Inputs(tail[x]) != Inputs(tail[0]) {
      InputsTell(tail[x], tail[0]);
      assert at[x] in recent && at[0] in recent;
    }
    if i, j :| i in recent && j in recent && multiset(run[i].counted) != multiset(run[j].counted) {
      var x :| 0 <= x < |at| && at[x] == i;
      var y :| 0 <= y < |at| && at[y] == j;
      InputsTell(tail[x], tail[y]);
      assert Inputs(tail[x]) != Inputs(tail[0]) || Inputs(tail[y]) != Inputs(tail[0]);
    }
  }

  lemma {:induction false} UncountedTells(admitted: seq<string>, window: seq<Round>, x: string)
    ensures x in Uncounted(admitted, window) <==> x in admitted && !CountedIn(x, window)
  {
    hide CountedIn;
    if admitted != [] {
      UncountedTells(admitted[..|admitted| - 1], window, x);
      assert admitted == admitted[..|admitted| - 1] + [admitted[|admitted| - 1]];
    }
  }

  lemma MissingTells(missing: seq<string>, r: Round, n: int, i: nat, v: Violation)
    requires i < |missing| && Is(v, "9.4", r, missing[i], n as real)
    ensures v in seq(|missing|, i requires 0 <= i < |missing| => Violation("9.4", r.asset, r.ledger, missing[i], n as real))
  {
    var out := seq(|missing|, i requires 0 <= i < |missing| => Violation("9.4", r.asset, r.ledger, missing[i], n as real));
    assert out[i] == v;
  }

  lemma AbsentTells(run: seq<Round>, r: Round, cfg: Config, v: Violation)
    requires cfg.participationWindow > 0
    ensures v in ParticipationCheck(OfAsset(run, r.asset), r, cfg) <==> Absent(run, r, cfg, v)
  {
    hide OfAsset, Recent, Tail, Uncounted, CountedIn, StringLe, Sort;
    var n := cfg.participationWindow;
    var hist, recent := OfAsset(run, r.asset), Recent(run, r.asset, n);
    var at := TailPlaces(run, r.asset, n);
    if |hist| >= n {
      var tail := Tail(hist, n);
      var missing := Sort(Uncounted(r.admitted, tail), StringLe);
      CountedTells(run, tail, at, recent, v.source);
      UncountedTells(r.admitted, tail, v.source);
      SortIsPermutation(Uncounted(r.admitted, tail), v.source, StringLe);
      var out := seq(|missing|, i requires 0 <= i < |missing| => Violation("9.4", r.asset, r.ledger, missing[i], n as real));
      assert ParticipationCheck(hist, r, cfg) == out;
      hide ParticipationCheck;
      if v in out {
        var i :| 0 <= i < |out| && out[i] == v;
        assert v.source == missing[i];
      }
      if Is(v, "9.4", r, v.source, n as real) && v.source in missing {
        var i :| 0 <= i < |missing| && missing[i] == v.source;
        MissingTells(missing, r, n, i, v);
      }
    }
  }

  lemma CountedTells(run: seq<Round>, tail: seq<Round>, at: seq<nat>, recent: set<nat>, source: string)
    requires At(run, tail, at, recent)
    ensures CountedIn(source, tail) <==> !(forall i | i in recent :: forall j | 0 <= j < |run[i].counted| :: run[i].counted[j].source != source)
  {
    if CountedIn(source, tail) {
      var i, j :| 0 <= i < |tail| && 0 <= j < |tail[i].counted| && tail[i].counted[j].source == source;
      assert at[i] in recent && run[at[i]].counted[j].source == source;
    }
    if !(forall i | i in recent :: forall j | 0 <= j < |run[i].counted| :: run[i].counted[j].source != source) {
      var i :| i in recent && exists j | 0 <= j < |run[i].counted| :: run[i].counted[j].source == source;
      var j :| 0 <= j < |run[i].counted| && run[i].counted[j].source == source;
      var x :| 0 <= x < |at| && at[x] == i;
      assert tail[x].counted[j].source == source;
    }
  }

  /** With positive windows, exactly these violations are owed for a round, given the rounds before it. */
  lemma OwedExactly(past: seq<Round>, r: Round, cfg: Config, v: Violation)
    requires cfg.Windowed()
    ensures var run := past + [r];
            v in Owed(past, r, cfg) <==> RaisedByRound(r, cfg, v) || Flat(run, r, cfg, v) || Absent(run, r, cfg, v) || Burnt(run, r, cfg, v)
  {
    hide RoundChecks, FlatlineCheck, ParticipationCheck, BurnCheck, RaisedByRound, Flat, Absent, Burnt, OfAsset, Stale, Tail;
    var run := past + [r];
    RoundTells(r, cfg, v);
    FlatTells(run, r, cfg, v);
    AbsentTells(run, r, cfg, v);
    BurnTells(run, r, cfg, v);
  }
}
