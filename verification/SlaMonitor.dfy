/** The SLA monitor: bounded windows against the whole run. */
module SlaMonitors {
  import opened Sorting
  import opened Strings
  import opened Medians

  const BPS := 10_000

  datatype Sample = Sample(source: string, value: int)

  /** One published aggregate. `admitted` is a set, listed in any order. */
  datatype Round = Round(asset: string, ledger: int, timestamp: int, publishedPrice: int, counted: seq<Sample>,
                         submissionTimestamps: seq<Sample>, admitted: seq<string>, referencePrices: seq<int>,
                         fresh_: bool, pausedSeconds: int)

  datatype Config = Config(maxDeviationBps: int, minSources: int, maxPriceAgeSecs: int, timestampThresholdSecs: int,
                           maxPauseSecs: int, flatlineRounds: int, participationWindow: int, freshnessSlo: real,
                           burnShortWindow: int, burnLongWindow: int, burnThreshold: real)
  {
    function HistoryLength(): int { if participationWindow >= flatlineRounds then participationWindow else flatlineRounds }

    /** A deque refuses a negative bound. */
    predicate Bounded() { HistoryLength() >= 0 && burnLongWindow >= 0 }

    predicate Windowed() {
      flatlineRounds > 0 && participationWindow > 0 && 0 < burnShortWindow <= burnLongWindow
    }
  }

  /** `source` is the source the clause names, if it names one. */
  datatype Violation = Violation(clause: string, asset: string, ledger: int, source: string, value: real)

  function V(clause: string, r: Round, value: real): Violation { Violation(clause, r.asset, r.ledger, "", value) }

  function Values(samples: seq<Sample>): seq<int> {
    seq(|samples|, i requires 0 <= i < |samples| => samples[i].value)
  }

  function AbsInt(x: int): int { if x >= 0 then x else -x }

  function DeviationBps(a: int, b: int): int {
    if b == 0 then (if a != 0 then BPS else 0) else AbsInt(a - b) * BPS / AbsInt(b)
  }

  // -- checks that look at one round ----------------------------------------

  function SkewChecks(r: Round, samples: seq<Sample>, cfg: Config): seq<Violation> {
    if samples == [] then [] else
    var n := |samples| - 1;
    var skew := AbsInt(samples[n].value - r.timestamp);
    SkewChecks(r, samples[..n], cfg) + (if skew > cfg.timestampThresholdSecs then [V("1.3", r, skew as real).(source := samples[n].source)] else [])
  }

  function InfluenceChecks(r: Round, samples: seq<Sample>): seq<Violation> {
    if samples == [] then [] else
    var n := |samples| - 1;
    InfluenceChecks(r, samples[..n]) + (if samples[n].source !in r.admitted then [V("9.5", r, 1.0).(source := samples[n].source)] else [])
  }

  function ReferenceChecks(r: Round, cfg: Config): seq<Violation> {
    if r.referencePrices == [] then [] else
    var dev := DeviationBps(r.publishedPrice, RecomputeMedian(r.referencePrices));
    (if dev > cfg.maxDeviationBps then [V("3", r, dev as real)] else [])
    + (if dev > 2 * cfg.maxDeviationBps then [V("6.3", r, dev as real)] else [])
  }

  function RoundChecks(r: Round, cfg: Config): seq<Violation> {
    var expected := RecomputeMedian(Values(r.counted));
    (if expected != r.publishedPrice then [V("9.1", r, (r.publishedPrice - expected) as real)] else [])
    + (if |r.counted| < cfg.minSources then [V("2", r, |r.counted| as real)] else [])
    + (if !r.fresh_ then [V("1.2", r, cfg.maxPriceAgeSecs as real)] else [])
    + SkewChecks(r, r.submissionTimestamps, cfg)
    + ReferenceChecks(r, cfg)
    + (if r.pausedSeconds > cfg.maxPauseSecs then [V("4.2", r, r.pausedSeconds as real)] else [])
    + InfluenceChecks(r, r.counted)
  }

  // -- checks that look back ------------------------------------------------

  /** Python's `s[-n:]`: with no positive `n` it is not a tail at all. */
  function Tail<T>(s: seq<T>, n: int): seq<T> {
    if n > 0 then (if n < |s| then s[|s| - n..] else s)
    else if -n < |s| then s[-n..] else []
  }

  /** The last `n` for a positive `n`, fewer if there are fewer; everything for zero; all but the first `-n` below. */
  lemma TailTells<T>(s: seq<T>, n: int)
    ensures n > 0 ==> |Tail(s, n)| == (if n <= |s| then n else |s|) && s[|s| - |Tail(s, n)|..] == Tail(s, n)
    ensures n == 0 ==> Tail(s, n) == s
    ensures n < 0 ==> Tail(s, n) == if -n <= |s| then s[-n..] else []
  {}

  /** What a deque bounded by `m` still holds of everything appended to it. */
  function Retained<T>(s: seq<T>, m: nat): seq<T> {
    if m < |s| then s[|s| - m..] else s
  }

  predicate SampleLe(a: Sample, b: Sample) {
    (a.source != b.source && StringLe(a.source, b.source)) || (a.source == b.source && a.value <= b.value)
  }

  function Inputs(r: Round): seq<Sample> { Sort(r.counted, SampleLe) }

  /** Clause 9.2: the aggregate stood still over `n` rounds while what fed it moved. */
  predicate Flatlined(tail: seq<Round>) {
    && tail != []
    && (forall i | 0 <= i < |tail| :: tail[i].publishedPrice == tail[0].publishedPrice)
    && exists i | 0 <= i < |tail| :: Inputs(tail[i]) != Inputs(tail[0])
  }

  function FlatlineCheck(hist: seq<Round>, r: Round, cfg: Config): seq<Violation> {
    if |hist| >= cfg.flatlineRounds && Flatlined(Tail(hist, cfg.flatlineRounds))
    then [V("9.2", r, cfg.flatlineRounds as real)] else []
  }

  predicate CountedIn(source: string, window: seq<Round>) {
    exists i, j | 0 <= i < |window| && 0 <= j < |window[i].counted| :: window[i].counted[j].source == source
  }

  function Uncounted(admitted: seq<string>, window: seq<Round>): seq<string> {
    if admitted == [] then [] else
    var n := |admitted| - 1;
    Uncounted(admitted[..n], window) + (if CountedIn(admitted[n], window) then [] else [admitted[n]])
  }

  function ParticipationCheck(hist: seq<Round>, r: Round, cfg: Config): seq<Violation> {
    if |hist| >= cfg.participationWindow then
      var missing := Sort(Uncounted(r.admitted, Tail(hist, cfg.participationWindow)), StringLe);
      seq(|missing|, i requires 0 <= i < |missing| => Violation("9.4", r.asset, r.ledger, missing[i], cfg.participationWindow as real))
    else []
  }

  function CountBad(bad: seq<bool>): nat {
    if bad == [] then 0 else CountBad(bad[..|bad| - 1]) + (if bad[|bad| - 1] then 1 else 0)
  }

  function BurnRate(bad: seq<bool>, budget: real): real {
    if bad == [] || budget <= 0.0 then 0.0 else CountBad(bad) as real / |bad| as real / budget
  }

  function BurnCheck(short: seq<bool>, long: seq<bool>, r: Round, cfg: Config): seq<Violation> {
    var budget := 1.0 - cfg.freshnessSlo;
    if BurnRate(short, budget) > cfg.burnThreshold && BurnRate(long, budget) > cfg.burnThreshold
    then [V("4.1", r, BurnRate(long, budget))] else []
  }

  // -- the reference: a monitor that forgets nothing ------------------------

  function OfAsset(run: seq<Round>, asset: string): seq<Round> {
    if run == [] then [] else
    var n := |run| - 1;
    OfAsset(run[..n], asset) + (if run[n].asset == asset then [run[n]] else [])
  }

  function Stale(run: seq<Round>): seq<bool> {
    seq(|run|, i requires 0 <= i < |run| => !run[i].fresh_)
  }

  /** What a round must raise, given every round before it. */
  function Owed(past: seq<Round>, r: Round, cfg: Config): seq<Violation> {
    var run := past + [r];
    var hist, bad := OfAsset(run, r.asset), Stale(run);
    RoundChecks(r, cfg) + FlatlineCheck(hist, r, cfg) + ParticipationCheck(hist, r, cfg)
    + BurnCheck(Tail(bad, cfg.burnShortWindow), Tail(bad, cfg.burnLongWindow), r, cfg)
  }

  function OwedOver(run: seq<Round>, cfg: Config): seq<Violation> {
    if run == [] then [] else OwedOver(run[..|run| - 1], cfg) + Owed(run[..|run| - 1], run[|run| - 1], cfg)
  }

  // -- the monitor ----------------------------------------------------------

  /** What the bounded monitor raises, from what its deques hold. */
  function Raised(hist: seq<Round>, bad: seq<bool>, r: Round, cfg: Config): seq<Violation> {
    RoundChecks(r, cfg) + FlatlineCheck(hist, r, cfg) + ParticipationCheck(hist, r, cfg)
    + BurnCheck(Tail(bad, cfg.burnShortWindow), bad, r, cfg)
  }

  /** Each asset's deque holds the end of its rounds. */
  ghost predicate Holds(history: map<string, seq<Round>>, run: seq<Round>, length: nat) {
    forall a :: Deque(history, a) == Retained(OfAsset(run, a), length)
  }

  /** A missing deque is created empty. */
  function Deque(history: map<string, seq<Round>>, asset: string): seq<Round> {
    if asset in history then history[asset] else []
  }

  lemma HoldsMore(history: map<string, seq<Round>>, run: seq<Round>, r: Round, length: nat)
    requires Holds(history, run, length)
    ensures Holds(history[r.asset := Retained(Deque(history, r.asset) + [r], length)], run + [r], length)
  {
    hide Retained, OfAsset;
    Appended(OfAsset(run, r.asset), r, length);
    var more := history[r.asset := Retained(Deque(history, r.asset) + [r], length)];
    forall a ensures Deque(more, a) == Retained(OfAsset(run + [r], a), length) {
      AssetGrows(run, r, a);
      assert Deque(history, a) == Retained(OfAsset(run, a), length);
      assert r.asset != a ==> OfAsset(run + [r], a) == OfAsset(run, a);
    }
  }

  class SlaMonitor {
    const cfg: Config
    var history: map<string, seq<Round>>
    var stale: seq<bool>
    var admittedEver: set<string>
    var latest: map<string, int>
    var violations: seq<Violation>
    ghost var run: seq<Round>

    constructor (cfg: Config)
      requires cfg.Bounded()
      ensures Valid() && run == [] && violations == [] && this.cfg == cfg
    {
      this.cfg := cfg;
      history, stale, admittedEver, latest, violations, run := map[], [], {}, map[], [], [];
    }

    /** The deques hold the end of the run, as much of it as their bounds allow. */
    ghost predicate Valid()
      reads this
    {
      && cfg.Bounded()
      && Holds(history, run, cfg.HistoryLength())
      && stale == Retained(Stale(run), cfg.burnLongWindow)
    }

    method Observe(r: Round) returns (out: seq<Violation>)
      requires Valid()
      modifies this
      ensures Valid() && run == old(run) + [r]
      ensures out == Raised(Deque(history, r.asset), stale, r, cfg)
      ensures cfg.Windowed() ==> out == Owed(old(run), r, cfg)
      ensures violations == old(violations) + out
      ensures latest == old(latest)[r.asset := r.publishedPrice]
      ensures admittedEver == old(admittedEver) + set s | s in r.admitted
    {
      hide RoundChecks, Flatlined, FlatlineCheck, ParticipationCheck, BurnCheck, Tail, Retained, Stale, OfAsset, Holds, Owed;
      out := RoundChecks(r, cfg);
      admittedEver := admittedEver + set s | s in r.admitted;
      HoldsMore(history, run, r, cfg.HistoryLength());
      var hist := Deque(history, r.asset);
      hist := Retained(hist + [r], cfg.HistoryLength());
      history := history[r.asset := hist];
      latest := latest[r.asset := r.publishedPrice];
      out := out + FlatlineCheck(hist, r, cfg);
      out := out + ParticipationCheck(hist, r, cfg);
      Appended(Stale(run), !r.fresh_, cfg.burnLongWindow);
      stale := Retained(stale + [!r.fresh_], cfg.burnLongWindow);
      out := out + BurnCheck(Tail(stale, cfg.burnShortWindow), stale, r, cfg);
      violations := violations + out;
      RunGrows(run, r);
      run := run + [r];
      if cfg.Windowed() {
        RaisedIsOwed(old(run), r, cfg);
        HeldIs(history, run, r.asset, cfg.HistoryLength());
      }
    }
  }

  lemma HeldIs(history: map<string, seq<Round>>, run: seq<Round>, asset: string, length: nat)
    requires Holds(history, run, length)
    ensures Deque(history, asset) == Retained(OfAsset(run, asset), length)
  {}

  /** Appending to the deque and appending to the run keep the same end. */
  lemma Appended<T>(s: seq<T>, x: T, m: nat)
    ensures Retained(Retained(s, m) + [x], m) == Retained(s + [x], m)
  {}

  lemma RunGrows(run: seq<Round>, r: Round)
    ensures Stale(run + [r]) == Stale(run) + [!r.fresh_]
  {}

  lemma AssetGrows(run: seq<Round>, r: Round, a: string)
    ensures OfAsset(run + [r], a) == OfAsset(run, a) + (if r.asset == a then [r] else [])
  {
    assert (run + [r])[..|run|] == run;
  }

  /** A tail no longer than the deque is the same tail of the whole run. */
  lemma TailOfRetained<T>(s: seq<T>, m: nat, n: int)
    requires 0 < n <= m
    ensures Tail(Retained(s, m), n) == Tail(s, n)
    ensures |Retained(s, m)| >= n <==> |s| >= n
  {}

  /** The bound on the short window is needed: exactly then does the deque hold all of it. */
  lemma WindowsAgreeExactly(long: nat, short: int)
    requires long > 0 && short > 0
    ensures short <= long <==> forall s: seq<bool> :: Tail(Retained(s, long), short) == Tail(s, short)
  {
    if short <= long {
      forall s: seq<bool> ensures Tail(Retained(s, long), short) == Tail(s, short) {
        TailOfRetained(s, long, short);
      }
    } else {
      var s := seq(short, _ => false);
      assert |Tail(Retained(s, long), short)| == long && |Tail(s, short)| == short;
    }
  }

  lemma LongIsRetained<T>(s: seq<T>, m: nat)
    requires m > 0
    ensures Tail(s, m) == Retained(s, m)
  {}

  /** With windows that fit, the bounded monitor raises exactly what the whole run calls for. */
  lemma RaisedIsOwed(past: seq<Round>, r: Round, cfg: Config)
    requires cfg.Windowed()
    ensures Raised(Retained(OfAsset(past + [r], r.asset), cfg.HistoryLength()), Retained(Stale(past + [r]), cfg.burnLongWindow), r, cfg)
         == Owed(past, r, cfg)
  {
    hide RoundChecks, Flatlined, BurnRate, Uncounted, Tail, Retained, OfAsset, Stale, Sort;
    var run := past + [r];
    var hist, bad := OfAsset(run, r.asset), Stale(run);
    TailOfRetained(hist, cfg.HistoryLength(), cfg.flatlineRounds);
    TailOfRetained(hist, cfg.HistoryLength(), cfg.participationWindow);
    TailOfRetained(bad, cfg.burnLongWindow, cfg.burnShortWindow);
    LongIsRetained(bad, cfg.burnLongWindow);
  }

  /** Over a whole run, the bounded monitor's record is the one a monitor keeping everything would have. */
  method Watch(rounds: seq<Round>, cfg: Config) returns (monitor: SlaMonitor)
    requires cfg.Windowed()
    ensures monitor.violations == OwedOver(rounds, cfg)
  {
    hide Owed, Raised, Holds;
    monitor := new SlaMonitor(cfg);
    for i := 0 to |rounds|
      invariant fresh(monitor) && monitor.Valid() && monitor.cfg == cfg && monitor.run == rounds[..i]
      invariant monitor.violations == OwedOver(rounds[..i], cfg)
    {
      assert rounds[..i + 1][..i] == rounds[..i];
      var out := monitor.Observe(rounds[i]);
      assert rounds[..i] + [rounds[i]] == rounds[..i + 1];
    }
    assert rounds[..|rounds|] == rounds;
  }
}
