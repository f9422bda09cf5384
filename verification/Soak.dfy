/** The soak rig: a retention model sampled once a round, and the growth check on its samples. */
module Soaks {
  import opened Sorting
  import opened Sums
  import opened Regression

  datatype Key = Key(asset: string, source: string)
  datatype Submission = Submission(round: int, asset: string, source: string, price: int, duplicate: bool)

  /** `leaky` selects the model that never prunes. */
  datatype Model = Model(window: int, entryBytes: nat, leaky: bool)

  function KeyOf(s: Submission): Key { Key(s.asset, s.source) }

  // -- what is retained -----------------------------------------------------

  function Keys(stream: seq<Submission>): seq<Key> {
    if stream == [] then [] else
    var n := |stream| - 1;
    var keys := Keys(stream[..n]);
    if KeyOf(stream[n]) in keys then keys else keys + [KeyOf(stream[n])]
  }

  /** Every price of a key, oldest first. */
  function Prices(stream: seq<Submission>, key: Key): seq<int> {
    if stream == [] then [] else
    var n := |stream| - 1;
    Prices(stream[..n], key) + (if KeyOf(stream[n]) == key then [stream[n].price] else [])
  }

  /** The last `window` of them, or all of them when there are fewer or nothing is pruned. */
  function Kept(prices: seq<int>, m: Model): seq<int> {
    if m.leaky || |prices| <= m.window then prices
    else if m.window <= 0 then []
    else prices[|prices| - m.window..]
  }

  lemma KeptOneMore(prices: seq<int>, x: int, m: Model)
    ensures Kept(Kept(prices, m) + [x], m) == Kept(prices + [x], m)
    ensures Kept([], m) == []
  {}

  ghost function Size(stream: seq<Submission>, m: Model): Key -> nat {
    (k: Key) => |Kept(Prices(stream, k), m)|
  }

  /** Entries retained over all keys. */
  ghost function Held(stream: seq<Submission>, m: Model): nat { Sum(Keys(stream), Size(stream, m)) }

  function Cost(m: Model, entries: nat): nat { m.entryBytes * entries }

  lemma CostAdds(m: Model, a: nat, b: nat)
    ensures Cost(m, a + b) == Cost(m, a) + Cost(m, b)
    ensures Cost(m, 0) == 0
  {}

  ghost function Bytes(stream: seq<Submission>, m: Model): nat { Cost(m, Held(stream, m)) }

  lemma {:induction false} KeysAreDistinct(stream: seq<Submission>)
    ensures Distinct(Keys(stream))
  {
    if stream != [] {
      KeysAreDistinct(stream[..|stream| - 1]);
    }
  }

  lemma {:induction false} PricesOfStranger(stream: seq<Submission>, key: Key)
    requires key !in Keys(stream)
    ensures Prices(stream, key) == []
  {
    if stream != [] {
      PricesOfStranger(stream[..|stream| - 1], key);
    }
  }

  lemma Grow(stream: seq<Submission>, s: Submission, key: Key)
    ensures Prices(stream + [s], key) == Prices(stream, key) + (if KeyOf(s) == key then [s.price] else [])
    ensures Keys(stream + [s]) == if KeyOf(s) in Keys(stream) then Keys(stream) else Keys(stream) + [KeyOf(s)]
  {
    assert (stream + [s])[..|stream|] == stream;
  }

  /** Whether a submission makes the retained state larger: nothing is pruned, or its key is not full yet. */
  predicate Fills(stream: seq<Submission>, s: Submission, m: Model) {
    m.leaky || |Prices(stream, KeyOf(s))| < m.window
  }

  lemma HeldStep(stream: seq<Submission>, s: Submission, m: Model)
    ensures Held(stream + [s], m) == Held(stream, m) + (if Fills(stream, s, m) then 1 else 0)
  {
    hide Prices, Keys, Sum;
    var k, keys := KeyOf(s), Keys(stream);
    var f, g := Size(stream, m), Size(stream + [s], m);
    forall i | 0 <= i < |keys| && keys[i] != k ensures f(keys[i]) == g(keys[i]) {
      Grow(stream, s, keys[i]);
      assert Prices(stream + [s], keys[i]) == Prices(stream, keys[i]);
    }
    Grow(stream, s, k);
    KeysAreDistinct(stream);
    assert g(k) == f(k) + (if Fills(stream, s, m) then 1 else 0);
    if k in keys {
      var i :| 0 <= i < |keys| && keys[i] == k;
      SumChangesOne(keys, i, f, g);
    } else {
      PricesOfStranger(stream, k);
      SumDependsOnKeys(keys, f, g);
      SumOneMore(keys, k, g);
    }
  }

  lemma SumOneMore(keys: seq<Key>, k: Key, f: Key -> nat)
    ensures Sum(keys + [k], f) == Sum(keys, f) + f(k)
  {
    assert (keys + [k])[..|keys|] == keys;
  }

  /** The leaky model retains one entry per submission. */
  lemma {:induction false} LeakyHoldsAll(stream: seq<Submission>, m: Model)
    requires m.leaky
    ensures Held(stream, m) == |stream|
  {
    hide Held;
    if stream == [] {
      HeldNothing(m);
    } else {
      var n := |stream| - 1;
      LeakyHoldsAll(stream[..n], m);
      HeldStep(stream[..n], stream[n], m);
      assert stream == stream[..n] + [stream[n]];
    }
  }

  lemma HeldNothing(m: Model)
    ensures Held([], m) == 0
  {}

  /** The bounded model never retains more than a window per key. */
  lemma BoundedHolds(stream: seq<Submission>, m: Model)
    requires !m.leaky && m.window >= 0
    ensures Held(stream, m) <= m.window * |Keys(stream)|
  {
    AtMostAWindowEach(Keys(stream), stream, m);
  }

  lemma {:induction false} AtMostAWindowEach(keys: seq<Key>, stream: seq<Submission>, m: Model)
    requires !m.leaky && m.window >= 0
    ensures Sum(keys, Size(stream, m)) <= m.window * |keys|
  {
    hide Prices;
    if keys != [] {
      AtMostAWindowEach(keys[..|keys| - 1], stream, m);
      assert m.window * |keys| == m.window * (|keys| - 1) + m.window;
    }
  }

  /** Between two points of a stream the retained state does not shrink, and it is the same at
      both exactly when no submission in between found its key unfilled. */
  lemma {:induction false} HeldBetween(stream: seq<Submission>, a: nat, b: nat, m: Model)
    requires a <= b <= |stream|
    ensures Held(stream[..a], m) <= Held(stream[..b], m)
    ensures Held(stream[..a], m) == Held(stream[..b], m) <==> forall i | a <= i < b :: !Fills(stream[..i], stream[i], m)
    decreases b
  {
    hide Held, Fills;
    if a < b {
      HeldBetween(stream, a, b - 1, m);
      HeldStep(stream[..b - 1], stream[b - 1], m);
      assert stream[..b] == stream[..b - 1] + [stream[b - 1]];
    }
  }

  /** `StateModel` and its leaky variant. */
  class StateModel {
    const m: Model
    var entries: map<Key, seq<int>>
    var order: seq<Key>
    var bytesRetained: int
    ghost var seen: seq<Submission>

    constructor (m: Model)
      ensures Valid() && seen == [] && this.m == m
    {
      this.m := m;
      entries, order, bytesRetained, seen := map[], [], 0, [];
      new;
      HeldNothing(m);
    }

    ghost predicate Valid()
      reads this
    {
      && order == Keys(seen)
      && (forall k :: k in entries <==> k in order)
      && (forall k | k in entries :: entries[k] == Kept(Prices(seen, k), m))
      && bytesRetained == Bytes(seen, m)
    }

    /** Each key keeps exactly its last `window` prices, and the byte count is theirs. */
    method Apply(s: Submission)
      requires Valid()
      modifies this
      ensures Valid() && seen == old(seen) + [s]
    {
      hide Prices, Keys, Bytes, Kept;
      var key := KeyOf(s);
      var buf := if key in entries then entries[key] else [];
      if key !in entries {
        order := order + [key];
        PricesOfStranger(seen, key);
      }
      KeptOneMore(Prices(seen, key), s.price, m);
      buf := Kept(buf + [s.price], m);
      entries := entries[key := buf];
      Grow(seen, s, key);
      forall k | k in entries ensures entries[k] == Kept(Prices(seen + [s], k), m) {
        Grow(seen, s, k);
        assert k != key ==> Prices(seen + [s], k) == Prices(seen, k);
      }
      seen := seen + [s];
      Recount();
    }

    method Recount()
      requires order == Keys(seen)
      requires forall k :: k in entries <==> k in order
      requires forall k | k in entries :: entries[k] == Kept(Prices(seen, k), m)
      modifies `bytesRetained
      ensures bytesRetained == Bytes(seen, m)
    {
      hide Prices, Keys, Kept, Cost;
      CostAdds(m, 0, 0);
      var total := 0;
      ghost var count := 0;
      for i := 0 to |order|
        invariant count == Sum(order[..i], Size(seen, m)) && total == Cost(m, count)
      {
        SumOneMore(order[..i], order[i], Size(seen, m));
        assert order[..i + 1] == order[..i] + [order[i]];
        assert order[i] in order;
        CostAdds(m, count, |entries[order[i]]|);
        total, count := total + Cost(m, |entries[order[i]]|), count + |entries[order[i]]|;
      }
      assert order[..|order|] == order;
      bytesRetained := total;
    }
  }

  // -- sampling -------------------------------------------------------------

  /** Whether some submission of `stream[lo..hi]` is counted rather than a duplicate. */
  predicate Counted(stream: seq<Submission>, lo: nat, hi: nat)
    requires lo <= hi <= |stream|
  {
    exists i | lo <= i < hi :: !stream[i].duplicate
  }

  function LastMark(marks: seq<nat>): nat { if marks == [] then 0 else marks[|marks| - 1] }

  /** How many submissions had arrived at each sample taken while consuming the stream: a round
      is closed when the next one starts, provided it counted anything. */
  function Closed(stream: seq<Submission>): (marks: seq<nat>)
    ensures LastMark(marks) <= |stream|
  {
    if stream == [] then [] else
    var n := |stream| - 1;
    var marks := Closed(stream[..n]);
    if n > 0 && stream[n].round != stream[n - 1].round && Counted(stream, LastMark(marks), n) then marks + [n] else marks
  }

  function Marks(stream: seq<Submission>): seq<nat> {
    var marks := Closed(stream);
    if Counted(stream, LastMark(marks), |stream|) then marks + [|stream|] else marks
  }

  ghost function Samples(stream: seq<Submission>, marks: seq<nat>, m: Model): seq<int>
    requires forall i | 0 <= i < |marks| :: marks[i] <= |stream|
  {
    seq(|marks|, i requires 0 <= i < |marks| => Bytes(stream[..marks[i]], m))
  }

  lemma SamplesStart(stream: seq<Submission>, m: Model)
    ensures Samples(stream, [], m) == []
  {}

  lemma SamplesOneMore(stream: seq<Submission>, marks: seq<nat>, at: nat, m: Model)
    requires at <= |stream| && forall i | 0 <= i < |marks| :: marks[i] <= |stream|
    ensures Samples(stream, marks + [at], m) == Samples(stream, marks, m) + [Bytes(stream[..at], m)]
  {
    hide Bytes;
  }

  /** Marks increase strictly: every sampled round brought at least one submission. */
  lemma {:induction false} ClosedAscend(stream: seq<Submission>)
    ensures forall i, j | 0 <= i < j < |Closed(stream)| :: Closed(stream)[i] < Closed(stream)[j]
    ensures forall i | 0 <= i < |Closed(stream)| :: 0 < Closed(stream)[i] <= |stream|
  {
    if stream != [] {
      ClosedAscend(stream[..|stream| - 1]);
    }
  }

  lemma MarksAscend(stream: seq<Submission>)
    ensures forall i, j | 0 <= i < j < |Marks(stream)| :: Marks(stream)[i] < Marks(stream)[j]
    ensures forall i | 0 <= i < |Marks(stream)| :: 0 < Marks(stream)[i] <= |stream|
  {
    ClosedAscend(stream);
  }

  /** The sampling loop of `run_soak`, over an arbitrary stream. */
  method RunSoak(stream: seq<Submission>, m: Model) returns (samples: seq<int>, marks: seq<nat>)
    ensures marks == Marks(stream)
    ensures (forall i | 0 <= i < |marks| :: marks[i] <= |stream|) && samples == Samples(stream, marks, m)
  {
    hide Bytes, Closed, Counted, Samples;
    SamplesStart(stream, m);
    var state := new StateModel(m);
    samples, marks := [], [];
    ClosedStart(stream);
    var counted: set<string> := {};
    var current := -1;
    MarksAscend(stream);
    for i := 0 to |stream|
      invariant fresh(state) && state.Valid() && state.m == m && state.seen == stream[..i]
      invariant marks == Closed(stream[..i]) && LastMark(marks) <= i
      invariant counted != {} <==> Counted(stream, LastMark(marks), i)
      invariant i > 0 ==> current == stream[i - 1].round
      invariant (forall j | 0 <= j < |marks| :: marks[j] <= i) && samples == Samples(stream, marks, m)
    {
      var sub := stream[i];
      ClosedStep(stream, i);
      CountedNext(stream, i, i);
      if sub.round != current && counted != {} {
        SamplesOneMore(stream, marks, i, m);
        samples, marks := samples + [state.bytesRetained], marks + [i];
        counted := {};
      }
      current := sub.round;
      state.Apply(sub);
      assert stream[..i] + [sub] == stream[..i + 1];
      if !sub.duplicate {
        counted := counted + {sub.source};
      }
      CountedNext(stream, LastMark(marks), i);
    }
    assert stream[..|stream|] == stream;
    if counted != {} {
      SamplesOneMore(stream, marks, |stream|, m);
      samples, marks := samples + [state.bytesRetained], marks + [|stream|];
    }
  }

  lemma ClosedStart(stream: seq<Submission>)
    ensures Closed(stream[..0]) == []
    ensures !Counted(stream, 0, 0)
  {}

  lemma ClosedStep(stream: seq<Submission>, i: nat)
    requires i < |stream|
    ensures var marks := Closed(stream[..i]);
            && LastMark(marks) <= i
            && !Counted(stream, i, i)
            && Closed(stream[..i + 1]) ==
                 if i > 0 && stream[i].round != stream[i - 1].round && Counted(stream, LastMark(marks), i) then marks + [i] else marks
  {
    hide Counted;
    assert stream[..i + 1][..i] == stream[..i];
    assert !Counted(stream, i, i) by {
      CountedNothing(stream, i);
    }
    CountedEarlier(stream, LastMark(Closed(stream[..i])), i);
  }

  lemma CountedNothing(stream: seq<Submission>, i: nat)
    requires i <= |stream|
    ensures !Counted(stream, i, i)
  {}

  lemma CountedEarlier(stream: seq<Submission>, lo: nat, i: nat)
    requires lo <= i < |stream|
    ensures Counted(stream[..i + 1], lo, i) <==> Counted(stream, lo, i)
  {}

  lemma CountedNext(stream: seq<Submission>, lo: nat, i: nat)
    requires lo <= i < |stream|
    ensures Counted(stream, lo, i + 1) <==> Counted(stream, lo, i) || !stream[i].duplicate
  {}

  // -- the growth check -----------------------------------------------------

  /** Where `pairs[min(warmup, n // 4):]` starts. */
  function Cut(n: nat, warmup: int): (c: nat)
    ensures c <= n
  {
    var w := if warmup <= n / 4 then warmup else n / 4;
    if w >= 0 then w else if n + w >= 0 then n + w else 0
  }

  function Reals(xs: seq<int>): seq<real> {
    seq(|xs|, i requires 0 <= i < |xs| => xs[i] as real)
  }

  function GrowthPer1k(marks: seq<int>, samples: seq<int>, warmup: int): real
    requires |marks| == |samples|
  {
    var c := Cut(|marks|, warmup);
    Slope(Reals(marks[c..]), Reals(samples[c..])) * 1000.0
  }

  /** The growth check of a whole run. */
  ghost predicate GrowthBreach(stream: seq<Submission>, m: Model, warmup: int, ceiling: real) {
    MarksAscend(stream);
    GrowthPer1k(Marks(stream), Samples(stream, Marks(stream), m), warmup) > ceiling
  }

  lemma AffineRun(marks: seq<int>, samples: seq<int>, warmup: int, e: int)
    requires |marks| == |samples| && forall i | 0 <= i < |marks| :: samples[i] == e * marks[i]
    requires forall i, j | 0 <= i < j < |marks| :: marks[i] < marks[j]
    ensures GrowthPer1k(marks, samples, warmup) == if |marks| - Cut(|marks|, warmup) < 2 then 0.0 else e as real * 1000.0
  {
    hide Slope;
    var c := Cut(|marks|, warmup);
    var xs, ys := Reals(marks[c..]), Reals(samples[c..]);
    OnLine(marks[c..], samples[c..], e);
    if |xs| >= 2 {
      assert xs[0] != xs[1] by {
        assert marks[c] < marks[c + 1];
      }
      SlopeOfLine(xs, ys, e as real, 0.0);
    } else {
      ShortSlope(xs, ys);
    }
  }

  lemma OnLine(marks: seq<int>, samples: seq<int>, e: int)
    requires |marks| == |samples| && forall i | 0 <= i < |marks| :: samples[i] == e * marks[i]
    ensures forall i | 0 <= i < |marks| :: Reals(samples)[i] == e as real * Reals(marks)[i] + 0.0
  {
    forall i | 0 <= i < |marks| ensures Reals(samples)[i] == e as real * Reals(marks)[i] + 0.0 {
      RealProduct(e, marks[i]);
    }
  }

  lemma ShortSlope(xs: seq<real>, ys: seq<real>)
    requires |xs| == |ys| && |xs| < 2
    ensures Slope(xs, ys) == 0.0
  {}

  lemma RealProduct(a: int, b: int)
    ensures (a * b) as real == a as real * b as real
  {}

  /** The leak is measured exactly, and reported by every run with two samples: more bytes per
      submission than the ceiling allows is necessary and sufficient. */
  lemma LeakIsCaughtExactly(stream: seq<Submission>, m: Model, warmup: nat, ceiling: real)
    requires m.leaky && ceiling >= 0.0
    ensures GrowthBreach(stream, m, warmup, ceiling) <==> |Marks(stream)| >= 2 && m.entryBytes as real * 1000.0 > ceiling
  {
    hide Marks, GrowthPer1k;
    MarksAscend(stream);
    var marks := Marks(stream);
    var samples := Samples(stream, marks, m);
    forall i | 0 <= i < |marks| ensures samples[i] == m.entryBytes * marks[i] {
      LeakyHoldsAll(stream[..marks[i]], m);
    }
    AffineRun(marks, samples, warmup, m.entryBytes);
  }

  /** For either model, with the default ceiling of zero: growth is reported if and only if, after
      the warm-up, some submission before the last sample found its key not full. */
  lemma GrowthReportedExactly(stream: seq<Submission>, m: Model, warmup: int)
    requires m.entryBytes > 0
    ensures var marks := Marks(stream);
            var c := Cut(|marks|, warmup);
            GrowthBreach(stream, m, warmup, 0.0) <==>
            && |marks| - c >= 2
            && exists i | marks[c] <= i < marks[|marks| - 1] :: 0 <= i < |stream| && Fills(stream[..i], stream[i], m)
  {
    hide Marks, Slope, Fills, Held;
    MarksAscend(stream);
    var marks := Marks(stream);
    var samples := Samples(stream, marks, m);
    var c := Cut(|marks|, warmup);
    var xs, ys := Reals(marks[c..]), Reals(samples[c..]);
    if |xs| < 2 {
      ShortSlope(xs, ys);
    } else {
      var last := |marks| - 1;
      SamplesRise(stream, marks, m);
      RisingExactly(xs, ys);
      assert ys[0] == samples[c] as real && ys[|ys| - 1] == samples[last] as real;
      HeldBetween(stream, marks[c], marks[last], m);
      MoreBytes(m.entryBytes, Held(stream[..marks[c]], m), Held(stream[..marks[last]], m));
      Thousandfold(Slope(xs, ys));
    }
  }

  lemma Thousandfold(x: real)
    ensures x * 1000.0 > 0.0 <==> x > 0.0
  {}

  lemma MoreBytes(e: nat, a: nat, b: nat)
    requires e > 0 && a <= b
    ensures e * a <= e * b && (e * a < e * b <==> a != b)
  {
    if a < b {
      assert e * b == e * a + e * (b - a);
      assert e * (b - a) > 0;
    }
  }

  lemma SamplesRise(stream: seq<Submission>, marks: seq<nat>, m: Model)
    requires m.entryBytes > 0
    requires forall i, j | 0 <= i < j < |marks| :: marks[i] < marks[j]
    requires forall i | 0 <= i < |marks| :: marks[i] <= |stream|
    ensures forall i, j | 0 <= i < j < |marks| :: Samples(stream, marks, m)[i] <= Samples(stream, marks, m)[j]
  {
    hide Held, Fills;
    forall i, j | 0 <= i < j < |marks| ensures Samples(stream, marks, m)[i] <= Samples(stream, marks, m)[j] {
      HeldBetween(stream, marks[i], marks[j], m);
      MoreBytes(m.entryBytes, Held(stream[..marks[i]], m), Held(stream[..marks[j]], m));
    }
  }

  /** The bounded model passes whenever every key is full by the first sample after the warm-up. */
  lemma FullKeysPass(stream: seq<Submission>, m: Model, warmup: int)
    requires !m.leaky && m.entryBytes > 0
    requires var marks := Marks(stream);
             var c := Cut(|marks|, warmup);
             c < |marks| ==> forall i | marks[c] <= i < |stream| :: 0 <= i && |Prices(stream[..i], KeyOf(stream[i]))| >= m.window
    ensures !GrowthBreach(stream, m, warmup, 0.0)
  {
    hide GrowthBreach, Marks;
    MarksAscend(stream);
    GrowthReportedExactly(stream, m, warmup);
  }

  function OneAsset(round: int, source: string): Submission { Submission(round, "A", source, 1, false) }

  /** One source three rounds running, but for the last, which another source reports. */
  function LateSource(): seq<Submission> { [OneAsset(0, "S"), OneAsset(1, "S"), OneAsset(2, "T")] }

  lemma LateSourceMarks()
    ensures Marks(LateSource()) == [1, 2, 3]
  {
    var stream := LateSource();
    assert stream[..3] == stream && stream[..2][..1] == stream[..1] && stream[..1][..0] == [];
    assert Closed([]) == [];
    assert Closed(stream[..1]) == [];
    assert !stream[..2][0].duplicate && Counted(stream[..2], 0, 1);
    assert Closed(stream[..2]) == [1];
    assert !stream[1].duplicate && Counted(stream, 1, 2);
    assert Closed(stream) == [1, 2];
    assert !stream[2].duplicate && Counted(stream, 2, 3);
  }

  /** The bounded model is reported as growing when a source is first seen after the warm-up. */
  lemma LateSourceReadsAsLeak(m: Model, warmup: nat)
    requires !m.leaky && m.window >= 1 && m.entryBytes > 0
    ensures GrowthBreach(LateSource(), m, warmup, 0.0)
  {
    var stream := LateSource();
    LateSourceMarks();
    assert Cut(3, warmup) == 0;
    assert Prices(stream[..2], Key("A", "T")) == [] by {
      assert stream[..2][..1] == stream[..1] && stream[..1][..0] == [];
      assert KeyOf(stream[0]) != Key("A", "T") && KeyOf(stream[1]) != Key("A", "T") by {
        assert "S"[0] != "T"[0];
      }
      assert Prices([], Key("A", "T")) == [] && Prices(stream[..1], Key("A", "T")) == [];
    }
    assert Fills(stream[..2], stream[2], m);
    hide GrowthBreach, Marks, Fills;
    GrowthReportedExactly(stream, m, warmup);
  }
}
