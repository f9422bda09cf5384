/** What a round's alerts are, with the median and the spread given by counting. */
module Alerts {
  import opened Sorting
  import opened Detection

  /** The middle value of an odd number, halfway between the two middle ones of an even number. */
  ghost predicate IsMedian(xs: seq<real>, m: real)
    requires xs != []
  {
    if |xs| % 2 == 1 then HasRank(xs, |xs| / 2, m, RealLe)
    else exists lower, upper :: MiddleTwo(xs, lower, upper) && 2.0 * m == lower + upper
  }

  ghost predicate MiddleTwo(xs: seq<real>, lower: real, upper: real)
    requires |xs| >= 2
  {
    HasRank(xs, |xs| / 2 - 1, lower, RealLe) && HasRank(xs, |xs| / 2, upper, RealLe)
  }

  function Distance(x: real, y: real): real { if x >= y then x - y else y - x }

  /** The median price of the round. */
  ghost predicate Centre(subs: seq<Submission>, m: real) {
    exists xs: seq<real> :: xs != [] && |xs| == |subs| && (forall i | 0 <= i < |xs| :: xs[i] == subs[i].price as real) && IsMedian(xs, m)
  }

  /** The median distance from it. */
  ghost predicate Spread(subs: seq<Submission>, m: real, mad: real) {
    exists xs: seq<real> ::
      xs != [] && |xs| == |subs| && (forall i | 0 <= i < |xs| :: xs[i] == Distance(subs[i].price as real, m)) && IsMedian(xs, mad)
  }

  /** Far enough out: the threshold times the scaled spread, or at all when there is no spread. */
  predicate FarOut(price: real, m: real, mad: real, config: Config) {
    if mad == 0.0 then price != m || config.madThreshold <= 0.0
    else Distance(price, m) >= config.madThreshold * (MAD_SCALE * mad)
  }

  /** And far enough in basis points of the median. */
  predicate WorthIt(price: real, m: real, config: Config) {
    if m == 0.0 then 0.0 >= config.minDeviationBps
    else 10000.0 * Distance(price, m) >= config.minDeviationBps * Distance(m, 0.0)
  }

  ghost predicate Alerted(subs: seq<Submission>, i: nat, config: Config)
    requires i < |subs|
  {
    |subs| >= config.minPeers
    && exists m, mad :: Centre(subs, m) && Spread(subs, m, mad) && FarOut(subs[i].price as real, m, mad, config)
                        && WorthIt(subs[i].price as real, m, config)
  }

  /** The alert speaks of that submission, and of how far it is out. */
  ghost predicate Reports(a: Alert, asset: string, ledger: int, sub: Submission, m: real, mad: real) {
    var price := sub.price as real;
    && a.asset == asset && a.ledger == ledger
    && a.source == sub.source && a.price == sub.price && a.timestamp == sub.timestamp && a.roundMedian == m
    && (if m == 0.0 then a.deviationBps == 0.0 else a.deviationBps * m == 10000.0 * (price - m))
    && (if mad == 0.0 then a.z == (if price == m then Finite(0.0) else Infinite) else a.z.Finite? && a.z.z * (MAD_SCALE * mad) == price - m)
  }

  // -- medians --------------------------------------------------------------

  lemma StatMedianIs(xs: seq<real>)
    requires xs != []
    ensures IsMedian(xs, StatMedian(xs))
  {
    hide Sort, HasRank;
    var n, s := |xs|, Sort(xs, RealLe);
    SortedHasRank(xs, n / 2, RealLe);
    if n % 2 == 0 {
      SortedHasRank(xs, n / 2 - 1, RealLe);
      assert MiddleTwo(xs, s[n / 2 - 1], s[n / 2]);
    }
  }

  lemma RankIsOne(xs: seq<real>, k: nat, a: real, b: real)
    requires HasRank(xs, k, a, RealLe) && HasRank(xs, k, b, RealLe)
    ensures a == b
  {
    assert RealLe(a, b) && RealLe(b, a);
  }

  lemma MedianIsOne(xs: seq<real>, a: real, b: real)
    requires xs != [] && IsMedian(xs, a) && IsMedian(xs, b)
    ensures a == b
  {
    hide HasRank;
    if |xs| % 2 == 1 {
      RankIsOne(xs, |xs| / 2, a, b);
    } else {
      var l, u :| MiddleTwo(xs, l, u) && 2.0 * a == l + u;
      var l2, u2 :| MiddleTwo(xs, l2, u2) && 2.0 * b == l2 + u2;
      RankIsOne(xs, |xs| / 2 - 1, l, l2);
      RankIsOne(xs, |xs| / 2, u, u2);
    }
  }

  lemma CentreIs(subs: seq<Submission>, m: real)
    requires subs != []
    ensures Centre(subs, m) <==> m == StatMedian(Prices(subs))
  {
    hide IsMedian, StatMedian;
    StatMedianIs(Prices(subs));
    if Centre(subs, m) {
      var xs: seq<real> :| xs != [] && |xs| == |subs| && (forall i | 0 <= i < |xs| :: xs[i] == subs[i].price as real) && IsMedian(xs, m);
      assert xs == Prices(subs);
      MedianIsOne(xs, m, StatMedian(xs));
    }
  }

  lemma SpreadIs(subs: seq<Submission>, m: real, mad: real)
    requires subs != []
    ensures Spread(subs, m, mad) <==> mad == StatMedian(Deviations(subs, m))
  {
    hide IsMedian, StatMedian;
    var devs := Deviations(subs, m);
    StatMedianIs(devs);
    assert forall i | 0 <= i < |devs| :: devs[i] == Distance(subs[i].price as real, m);
    if Spread(subs, m, mad) {
      var xs: seq<real> :|
        xs != [] && |xs| == |subs| && (forall i | 0 <= i < |xs| :: xs[i] == Distance(subs[i].price as real, m)) && IsMedian(xs, mad);
      assert xs == devs;
      MedianIsOne(xs, mad, StatMedian(xs));
    }
  }

  // -- the gates ------------------------------------------------------------

  lemma Quotient(x: real, d: real, t: real)
    requires d > 0.0
    ensures x / d * d == x
    ensures Abs(x / d) >= t <==> Abs(x) >= t * d
  {
    DividesBack(x, d);
    var q := Abs(x / d);
    if q >= t {
      assert (q - t) * d >= 0.0;
    } else {
      assert (t - q) * d > 0.0;
    }
  }

  lemma ScaledQuotient(x: real, m: real, t: real)
    requires m != 0.0
    ensures x / m * 10000.0 * m == 10000.0 * x
    ensures Abs(x / m * 10000.0) >= t <==> 10000.0 * Abs(x) >= t * Abs(m)
  {
    var d, q := Abs(m), x / m;
    assert q * m == x;
    assert Abs(q) * d == Abs(x) by { AbsOfProduct(q, m); }
    var b := q * 10000.0;
    assert Abs(b) == Abs(q) * 10000.0;
    assert Abs(b) * d == 10000.0 * Abs(x) by { Regroup(Abs(q), d); }
    assert b * m == 10000.0 * x by { Regroup(q, m); }
    if Abs(b) >= t {
      assert (Abs(b) - t) * d >= 0.0;
    } else {
      assert (t - Abs(b)) * d > 0.0;
    }
  }

  lemma Regroup(q: real, m: real)
    ensures q * 10000.0 * m == 10000.0 * (q * m)
  {}

  lemma AbsOfProduct(q: real, m: real)
    ensures Abs(q) * Abs(m) == Abs(q * m)
  {
    if q >= 0.0 && m < 0.0 {
      assert q * m <= 0.0;
    } else if q < 0.0 && m >= 0.0 {
      assert q * m <= 0.0;
    } else {
      assert q * m >= 0.0;
    }
  }

  lemma ZTells(price: real, m: real, mad: real, config: Config)
    requires mad >= 0.0
    ensures var z := ZScore(price, m, mad); (z.Infinite? || Abs(z.z) >= config.madThreshold) <==> FarOut(price, m, mad, config)
  {
    if mad != 0.0 {
      Quotient(price - m, MAD_SCALE * mad, config.madThreshold);
    }
  }

  lemma BpsTells(price: real, m: real, config: Config)
    ensures Abs(DeviationBps(price, m)) >= config.minDeviationBps <==> WorthIt(price, m, config)
  {
    if m != 0.0 {
      ScaledQuotient(price - m, m, config.minDeviationBps);
    }
  }

  lemma FlaggedTells(sub: Submission, m: real, mad: real, config: Config)
    requires mad >= 0.0
    ensures Flagged(sub, m, mad, config) <==> FarOut(sub.price as real, m, mad, config) && WorthIt(sub.price as real, m, config)
  {
    hide ZScore, DeviationBps, FarOut, WorthIt;
    ZTells(sub.price as real, m, mad, config);
    BpsTells(sub.price as real, m, config);
  }

  lemma AlertTells(asset: string, ledger: int, sub: Submission, m: real, mad: real)
    requires mad >= 0.0
    ensures Reports(AlertOf(ledger, asset, sub, m, mad), asset, ledger, sub, m, mad)
  {
    var x := sub.price as real - m;
    if mad != 0.0 {
      Quotient(x, MAD_SCALE * mad, 0.0);
    }
    if m != 0.0 {
      ScaledQuotient(x, m, 0.0);
    }
  }

  // -- the round ------------------------------------------------------------

  /** Climbing places of the round: those of the submissions alerted, and of no others. */
  ghost predicate AlertedPlaces(subs: seq<Submission>, config: Config, at: seq<nat>) {
    && (forall j, k | 0 <= j < k < |at| :: at[j] < at[k])
    && (forall j | 0 <= j < |at| :: at[j] < |subs| && Alerted(subs, at[j], config))
    && (forall i: nat | i < |subs| && Alerted(subs, i, config) :: i in at)
  }

  lemma {:induction false} FlaggedPlaces(asset: string, ledger: int, subs: seq<Submission>, m: real, mad: real, config: Config)
    returns (at: seq<nat>)
    ensures forall j, k | 0 <= j < k < |at| :: at[j] < at[k]
    ensures forall j | 0 <= j < |at| :: at[j] < |subs| && Flagged(subs[at[j]], m, mad, config)
    ensures forall i: nat | i < |subs| && Flagged(subs[i], m, mad, config) :: i in at
    ensures |AlertsOf(asset, ledger, subs, m, mad, config)| == |at|
    ensures forall j | 0 <= j < |at| :: AlertsOf(asset, ledger, subs, m, mad, config)[j] == AlertOf(ledger, asset, subs[at[j]], m, mad)
    decreases |subs|
  {
    hide Flagged, AlertOf;
    at := [];
    if subs != [] {
      var n := |subs| - 1;
      var before := FlaggedPlaces(asset, ledger, subs[..n], m, mad, config);
      at := before + if Flagged(subs[n], m, mad, config) then [n] else [];
      forall i: nat | i < |subs| && Flagged(subs[i], m, mad, config) ensures i in at {
        if i < n {
          assert subs[..n][i] == subs[i];
        }
      }
    }
  }

  lemma AlertedIs(subs: seq<Submission>, i: nat, config: Config)
    requires i < |subs|
    ensures var m := StatMedian(Prices(subs));
            Alerted(subs, i, config) <==> |subs| >= config.minPeers && Flagged(subs[i], m, StatMedian(Deviations(subs, m)), config)
  {
    hide StatMedian, Centre, Spread, Flagged, FarOut, WorthIt;
    var m := StatMedian(Prices(subs));
    var mad := StatMedian(Deviations(subs, m));
    CentreIs(subs, m);
    SpreadIs(subs, m, mad);
    MadIsNonNegative(subs, m);
    FlaggedTells(subs[i], m, mad, config);
    if Alerted(subs, i, config) {
      var m2, mad2 :| Centre(subs, m2) && Spread(subs, m2, mad2) && FarOut(subs[i].price as real, m2, mad2, config)
                      && WorthIt(subs[i].price as real, m2, config);
      CentreIs(subs, m2);
      SpreadIs(subs, m, mad2);
    }
  }

  /** The alerts of a round are those of the submissions that are far out and worth it, in their order, each
      saying what it is about. */
  lemma AlertedExactly(asset: string, ledger: int, subs: seq<Submission>, config: Config) returns (at: seq<nat>)
    ensures AlertedPlaces(subs, config, at)
    ensures var alerts := ScoreRound(asset, ledger, subs, config);
            && |alerts| == |at|
            && forall j | 0 <= j < |at| ::
                 exists m, mad :: Centre(subs, m) && Spread(subs, m, mad) && Reports(alerts[j], asset, ledger, subs[at[j]], m, mad)
  {
    hide StatMedian, Centre, Spread, Flagged, Alerted, AlertOf, Reports, AlertsOf;
    at := [];
    if subs != [] {
      var m := StatMedian(Prices(subs));
      var mad := StatMedian(Deviations(subs, m));
      forall i: nat | i < |subs| ensures Alerted(subs, i, config) <==> |subs| >= config.minPeers && Flagged(subs[i], m, mad, config) {
        AlertedIs(subs, i, config);
      }
      CentreIs(subs, m);
      SpreadIs(subs, m, mad);
      MadIsNonNegative(subs, m);
      if |subs| >= config.minPeers {
        at := FlaggedPlaces(asset, ledger, subs, m, mad, config);
        var alerts := ScoreRound(asset, ledger, subs, config);
        forall j | 0 <= j < |at|
          ensures exists m, mad :: Centre(subs, m) && Spread(subs, m, mad) && Reports(alerts[j], asset, ledger, subs[at[j]], m, mad)
        {
          AlertTells(asset, ledger, subs[at[j]], m, mad);
        }
      }
    }
  }

  // -- scale ----------------------------------------------------------------

  function Scaled(subs: seq<Submission>, c: nat): seq<Submission> {
    seq(|subs|, i requires 0 <= i < |subs| => subs[i].(price := c * subs[i].price))
  }

  function Mul(c: real, x: real): real { c * x }

  function Times(xs: seq<real>, c: real): seq<real> {
    seq(|xs|, i requires 0 <= i < |xs| => c * xs[i])
  }

  lemma TimesAt(xs: seq<real>, c: real)
    ensures |Times(xs, c)| == |xs| && forall i | 0 <= i < |xs| :: Times(xs, c)[i] == Mul(c, xs[i])
  {}

  lemma PriceScales(subs: seq<Submission>, c: nat)
    ensures |Scaled(subs, c)| == |subs| && forall i | 0 <= i < |subs| :: Scaled(subs, c)[i].price as real == Mul(c as real, subs[i].price as real)
  {
    forall i | 0 <= i < |subs| ensures Scaled(subs, c)[i].price as real == Mul(c as real, subs[i].price as real) {
      assert Scaled(subs, c)[i].price == c * subs[i].price;
    }
  }

  lemma Keeps(a: real, b: real, c: real)
    requires c > 0.0
    ensures Mul(c, a) <= Mul(c, b) <==> a <= b
    ensures Mul(c, a) == Mul(c, b) <==> a == b
    ensures Distance(Mul(c, a), Mul(c, b)) == Mul(c, Distance(a, b))
    ensures Mul(c, 0.0) == 0.0
  {
    if a < b {
      assert c * (b - a) > 0.0;
    } else if a > b {
      assert c * (a - b) > 0.0;
    }
  }

  lemma RankScales(xs: seq<real>, k: nat, v: real, c: real)
    requires c > 0.0 && HasRank(xs, k, v, RealLe)
    ensures HasRank(Times(xs, c), k, Mul(c, v), RealLe)
  {
    TimesAt(xs, c);
    hide Times, Mul;
    var ys := Times(xs, c);
    forall i | 0 <= i < |xs| ensures AtMost(ys, ys[i], RealLe) == AtMost(xs, xs[i], RealLe) {
      forall j | 0 <= j < |xs| ensures RealLe(ys[j], ys[i]) <==> RealLe(xs[j], xs[i]) {
        Keeps(xs[j], xs[i], c);
      }
    }
    var at :| 0 <= at < |xs| && xs[at] == v;
    assert ys[at] == Mul(c, v);
    forall y | y in ys ensures RealLe(Mul(c, v), y) <==> |AtMost(ys, y, RealLe)| > k {
      var i :| 0 <= i < |ys| && ys[i] == y;
      Keeps(v, xs[i], c);
      assert xs[i] in xs;
    }
  }

  lemma MedianScales(xs: seq<real>, m: real, c: real)
    requires c > 0.0 && xs != [] && IsMedian(xs, m)
    ensures |Times(xs, c)| == |xs| && IsMedian(Times(xs, c), Mul(c, m))
  {
    hide HasRank, Times;
    TimesAt(xs, c);
    if |xs| % 2 == 1 {
      RankScales(xs, |xs| / 2, m, c);
    } else {
      var l, u :| MiddleTwo(xs, l, u) && 2.0 * m == l + u;
      RankScales(xs, |xs| / 2 - 1, l, c);
      RankScales(xs, |xs| / 2, u, c);
      assert MiddleTwo(Times(xs, c), Mul(c, l), Mul(c, u));
      Halves(m, l, u, c);
    }
  }

  lemma Halves(m: real, l: real, u: real, c: real)
    requires 2.0 * m == l + u
    ensures 2.0 * Mul(c, m) == Mul(c, l) + Mul(c, u)
  {
    assert c * (2.0 * m) == c * l + c * u;
  }

  lemma CentreScales(subs: seq<Submission>, m: real, c: nat)
    requires c > 0 && Centre(subs, m)
    ensures Centre(Scaled(subs, c), Mul(c as real, m))
  {
    PriceScales(subs, c);
    hide IsMedian, Times, Mul, Scaled;
    var xs: seq<real> :| xs != [] && |xs| == |subs| && (forall i | 0 <= i < |xs| :: xs[i] == subs[i].price as real) && IsMedian(xs, m);
    MedianScales(xs, m, c as real);
    TimesAt(xs, c as real);
    var ys := Times(xs, c as real);
    assert forall i | 0 <= i < |ys| :: ys[i] == Scaled(subs, c)[i].price as real;
  }

  lemma SpreadScales(subs: seq<Submission>, m: real, mad: real, c: nat)
    requires c > 0 && Spread(subs, m, mad)
    ensures Spread(Scaled(subs, c), Mul(c as real, m), Mul(c as real, mad))
  {
    PriceScales(subs, c);
    hide IsMedian, Distance, Times, Mul, Scaled;
    var xs: seq<real> :|
      xs != [] && |xs| == |subs| && (forall i | 0 <= i < |xs| :: xs[i] == Distance(subs[i].price as real, m)) && IsMedian(xs, mad);
    MedianScales(xs, mad, c as real);
    TimesAt(xs, c as real);
    var ys := Times(xs, c as real);
    forall i | 0 <= i < |ys| ensures ys[i] == Distance(Scaled(subs, c)[i].price as real, Mul(c as real, m)) {
      Keeps(subs[i].price as real, m, c as real);
    }
  }

  lemma FarOutScales(price: real, m: real, mad: real, config: Config, c: real)
    requires c > 0.0
    ensures FarOut(Mul(c, price), Mul(c, m), Mul(c, mad), config) <==> FarOut(price, m, mad, config)
  {
    var bound := config.madThreshold * (MAD_SCALE * mad);
    Moves(config.madThreshold, mad, c);
    hide Mul, Distance;
    Keeps(price, m, c);
    Keeps(mad, 0.0, c);
    Keeps(bound, Distance(price, m), c);
  }

  lemma Moves(t: real, mad: real, c: real)
    ensures t * (MAD_SCALE * Mul(c, mad)) == Mul(c, t * (MAD_SCALE * mad))
  {
    assert MAD_SCALE * (c * mad) == c * (MAD_SCALE * mad);
    Commutes(t, c, MAD_SCALE * mad);
  }

  lemma Commutes(t: real, c: real, x: real)
    ensures t * (c * x) == c * (t * x)
  {}

  lemma WorthItScales(price: real, m: real, config: Config, c: real)
    requires c > 0.0
    ensures WorthIt(Mul(c, price), Mul(c, m), config) <==> WorthIt(price, m, config)
  {
    var t := config.minDeviationBps;
    Commutes(t, c, Distance(m, 0.0));
    Commutes(10000.0, c, Distance(price, m));
    assert t * Mul(c, Distance(m, 0.0)) == Mul(c, t * Distance(m, 0.0));
    assert 10000.0 * Mul(c, Distance(price, m)) == Mul(c, 10000.0 * Distance(price, m));
    hide Mul, Distance;
    Keeps(price, m, c);
    Keeps(m, 0.0, c);
    Keeps(t * Distance(m, 0.0), 10000.0 * Distance(price, m), c);
  }

  lemma AlertedBy(subs: seq<Submission>, i: nat, config: Config, m: real, mad: real)
    requires i < |subs| && Centre(subs, m) && Spread(subs, m, mad)
    ensures Alerted(subs, i, config) <==>
            |subs| >= config.minPeers && FarOut(subs[i].price as real, m, mad, config) && WorthIt(subs[i].price as real, m, config)
  {
    hide Centre, Spread, FarOut, WorthIt, StatMedian;
    if Alerted(subs, i, config) {
      var m2, mad2 :| Centre(subs, m2) && Spread(subs, m2, mad2) && FarOut(subs[i].price as real, m2, mad2, config)
                      && WorthIt(subs[i].price as real, m2, config);
      CentreIs(subs, m);
      CentreIs(subs, m2);
      SpreadIs(subs, m, mad);
      SpreadIs(subs, m, mad2);
    }
  }

  /** A verdict does not depend on the unit prices are quoted in. */
  lemma ScaleChangesNothing(subs: seq<Submission>, i: nat, config: Config, c: nat)
    requires c > 0 && i < |subs|
    ensures |Scaled(subs, c)| == |subs| && (Alerted(Scaled(subs, c), i, config) <==> Alerted(subs, i, config))
  {
    hide Centre, Spread, FarOut, WorthIt, StatMedian, Alerted, Mul, Scaled;
    PriceScales(subs, c);
    var m := StatMedian(Prices(subs));
    var mad := StatMedian(Deviations(subs, m));
    CentreIs(subs, m);
    SpreadIs(subs, m, mad);
    CentreScales(subs, m, c);
    SpreadScales(subs, m, mad, c);
    AlertedBy(subs, i, config, m, mad);
    AlertedBy(Scaled(subs, c), i, config, Mul(c as real, m), Mul(c as real, mad));
    FarOutScales(subs[i].price as real, m, mad, config, c as real);
    WorthItScales(subs[i].price as real, m, config, c as real);
  }
}
