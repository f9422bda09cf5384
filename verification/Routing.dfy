/** The region router as a state machine: at-most-once submission across a fleet
    whose transport may refuse, succeed, or leave the outcome unknown. */
module Routing {
  import opened Options

  datatype Health = Healthy | Degraded | Unhealthy

  datatype Region = Region(
    name: string, threshold: int, cooldown: real,
    failures: int, successes: int, cooldownUntil: real, health: Health, submissions: nat)
  {
    predicate Available() { !health.Unhealthy? }
  }

  datatype Submission = Submission(source: string, asset: string, ledger: int, price: int)

  /** The text the idempotency key hashes: source, asset and ledger joined by bars.
      The ledger is the last part and has no bar in it, so it is kept apart. */
  datatype Key = Key(text: string, ledger: int)

  function KeyOf(sub: Submission): Key { Key(sub.source + "|" + sub.asset, sub.ledger) }

  const PROBE := Submission("__probe__", "__probe__", -1, 0)
  const PENDING := "pending"

  /** What the transport did with one call. */
  datatype Outcome = Delivered | Refused | Ambiguous

  datatype Call = Call(key: Key, region: nat, outcome: Outcome, probe: bool)

  datatype Kind = Failover | Degrade | Unavailable
  datatype Event = Event(kind: Kind, source: Option<string>, target: Option<string>)

  datatype Router = Router(
    regions: seq<Region>, ledger: map<Key, string>, quarantined: set<Key>, suppressed: nat,
    active: Option<nat>, events: seq<Event>, calls: seq<Call>, readings: nat)

  /** The transport and the clock are arbitrary: what the n-th call comes to when it is made to a
      region, and what the n-th reading of the clock shows. Every probe reads the clock, also one that
      makes no call, so any amount of time can pass while the fleet is idle. */
  datatype World = World(outcome: (nat, nat) -> Outcome, clock: nat -> real)

  datatype Result =
    | Accepted(region: nat)
    | Duplicate(quarantined: bool)
    | Unknown(region: nat)
    | NoRegion

  function Name(s: Router, i: Option<nat>): Option<string> {
    if i.Some? && i.value < |s.regions| then Some(s.regions[i.value].name) else None
  }

  function Names(regions: seq<Region>): set<string> {
    set r | r in regions :: r.name
  }

  function Log(s: Router, kind: Kind, source: Option<nat>, target: Option<nat>): Router {
    s.(events := s.events + [Event(kind, Name(s, source), Name(s, target))])
  }

  /** `_note_failure`. */
  function NoteFailure(s: Router, i: nat, w: World): Router
    requires i < |s.regions|
  {
    var r := s.regions[i];
    var hit := r.(failures := r.failures + 1, successes := 0);
    if hit.failures >= hit.threshold then
      var logged := if r.Available() then Log(s, Degrade, Some(i), None) else s;
      logged.(regions := s.regions[i := hit.(health := Unhealthy, cooldownUntil := w.clock(s.readings) + hit.cooldown)],
              readings := s.readings + 1)
    else s.(regions := s.regions[i := hit])
  }

  predicate Usable(regions: seq<Region>, i: nat, current: Option<nat>, skip: set<string>)
    requires i < |regions|
  {
    regions[i].Available() && Some(i) != current && regions[i].name !in skip
  }

  /** The first usable region at or after `i`. */
  function FirstUsable(regions: seq<Region>, i: nat, current: Option<nat>, skip: set<string>): (r: Option<nat>)
    requires i <= |regions|
    ensures r.Some? ==> i <= r.value < |regions| && Usable(regions, r.value, current, skip)
    ensures r.Some? ==> forall j | i <= j < r.value :: !Usable(regions, j, current, skip)
    ensures r.None? ==> forall j | i <= j < |regions| ::
              !regions[j].Available() || Some(j) == current || regions[j].name in skip
    decreases |regions| - i
  {
    if i == |regions| then None
    else if Usable(regions, i, current, skip) then Some(i)
    else FirstUsable(regions, i + 1, current, skip)
  }

  /** `failover`. */
  function DoFailover(s: Router, skip: set<string>): (r: (Router, Option<nat>))
    ensures r.1.Some? ==> r.1.value < |s.regions| && Usable(s.regions, r.1.value, s.active, skip)
    ensures r.1.None? ==> forall i | 0 <= i < |s.regions| ::
              !s.regions[i].Available() || Some(i) == s.active || s.regions[i].name in skip
  {
    var next := FirstUsable(s.regions, 0, s.active, skip);
    if next.None? then (Log(s, Unavailable, s.active, None).(active := None), None)
    else (Log(s, Failover, s.active, next).(active := next), next)
  }

  /** `ensure_active`. */
  function EnsureActive(s: Router, skip: set<string>): (r: (Router, Option<nat>))
    ensures r.0.regions == s.regions && r.0.ledger == s.ledger && r.0.quarantined == s.quarantined && r.0.calls == s.calls
    ensures r.0.suppressed == s.suppressed && r.0.readings == s.readings
    ensures r.1.Some? ==> r.1.value < |s.regions| && s.regions[r.1.value].Available() && s.regions[r.1.value].name !in skip
                          && r.0.active == r.1
    ensures r.1.None? <==> forall i | 0 <= i < |s.regions| :: !s.regions[i].Available() || s.regions[i].name in skip
    ensures s.active.Some? && s.active.value < |s.regions| ==> r.0.active.Some? && r.0.active.value < |s.regions|
  {
    if s.active.Some? && s.active.value < |s.regions| && s.regions[s.active.value].Available()
       && s.regions[s.active.value].name !in skip then (s, s.active)
    else
      var (t, chosen) := DoFailover(s.(active := None), skip);
      (if chosen.None? then t.(active := s.active) else t, chosen)
  }

  /** One transport call, its outcome decided by the world. */
  function Transport(s: Router, i: nat, sub: Submission, probe: bool, w: World): (Router, Outcome) {
    var o := w.outcome(|s.calls|, i);
    (s.(calls := s.calls + [Call(KeyOf(sub), i, o, probe)]), o)
  }

  /** The loop of `submit`, after the write-ahead intent. */
  function Attempt(s: Router, sub: Submission, tried: set<string>, w: World): (r: (Router, Result))
    decreases Names(s.regions) - tried
  {
    var key := KeyOf(sub);
    var (s1, region) := EnsureActive(s, tried);
    if region.None? then (s1.(ledger := s1.ledger - {key}), NoRegion)
    else
      var i := region.value;
      var (s2, o) := Transport(s1, i, sub, false, w);
      assert s.regions[i] in s.regions && s.regions[i].name in Names(s.regions);
      match o
      case Refused =>
        var s3 := NoteFailure(s2, i, w);
        var s4 := DoFailover(s3, {}).0;
        assert Names(s4.regions) == Names(s.regions) by { SameNames(s.regions, s4.regions); }
        Attempt(s4, sub, tried + {s.regions[i].name}, w)
      case Ambiguous =>
        var s3 := NoteFailure(s2, i, w);
        var s4 := DoFailover(s3, {}).0;
        (s4.(quarantined := s4.quarantined + {key}), Unknown(i))
      case Delivered =>
        var r := s2.regions[i];
        (s2.(regions := s2.regions[i := r.(submissions := r.submissions + 1)], ledger := s2.ledger[key := r.name]), Accepted(i))
  }

  lemma SameNames(a: seq<Region>, b: seq<Region>)
    requires |a| == |b| && forall i | 0 <= i < |a| :: a[i].name == b[i].name
    ensures Names(a) == Names(b)
  {
    forall n | n in Names(a) ensures n in Names(b) {
      var i :| 0 <= i < |a| && a[i].name == n;
      assert b[i] in b;
    }
    forall n | n in Names(b) ensures n in Names(a) {
      var i :| 0 <= i < |b| && b[i].name == n;
      assert a[i] in a;
    }
  }

  /** `submit`. */
  function Submit(s: Router, sub: Submission, w: World): (Router, Result) {
    var key := KeyOf(sub);
    if key in s.quarantined then (s.(suppressed := s.suppressed + 1), Duplicate(true))
    else if key in s.ledger then (s.(suppressed := s.suppressed + 1), Duplicate(false))
    else Attempt(s.(ledger := s.ledger[key := PENDING]), sub, {}, w)
  }

  /** `probe`. */
  function Probe(s: Router, i: nat, w: World): (Router, bool)
    requires i < |s.regions|
  {
    var s0 := s.(readings := s.readings + 1);
    if s.regions[i].cooldownUntil > w.clock(s.readings) then (s0, false)
    else
      var (s1, o) := Transport(s0, i, PROBE, true, w);
      if o.Delivered? then
        var r := s1.regions[i];
        (s1.(regions := s1.regions[i := r.(failures := 0, successes := r.successes + 1, health := Healthy)]), true)
      else (NoteFailure(s1, i, w), false)
  }

  // -- runs -----------------------------------------------------------------

  datatype Op = Submitted(sub: Submission) | Probed(region: nat)

  function Do(s: Router, op: Op, w: World): Router {
    match op
    case Submitted(sub) => Submit(s, sub, w).0
    case Probed(i) => if i < |s.regions| then Probe(s, i, w).0 else s
  }

  function Run(s: Router, ops: seq<Op>, w: World): Router {
    if ops == [] then s else Do(Run(s, ops[..|ops| - 1], w), ops[|ops| - 1], w)
  }

  lemma RunMore(s: Router, ops: seq<Op>, op: Op, w: World)
    ensures Run(s, ops + [op], w) == Do(Run(s, ops, w), op, w)
    ensures Run(s, [], w) == s
  {
    hide Do;
    assert (ops + [op])[..|ops|] == ops;
  }

  /** A router over regions that have just been configured. */
  ghost predicate Initial(s: Router) {
    && s.regions != [] && s.active == Some(0)
    && s.ledger == map[] && s.quarantined == {} && s.calls == []
    && forall r | r in s.regions :: r.failures == 0 && r.successes == 0 && r.submissions == 0 && r.health == Healthy
  }

  // -- at most once ---------------------------------------------------------

  /** Every call for `key` but the last was provably refused. */
  ghost predicate AtMostOnce(calls: seq<Call>, key: Key) {
    forall i, j | 0 <= i < j < |calls| && calls[i].key == key && calls[j].key == key :: calls[i].outcome.Refused?
  }

  /** The same of the calls that are submissions. */
  ghost predicate SentOnce(calls: seq<Call>, key: Key) {
    forall i, j | 0 <= i < j < |calls| && calls[i].key == key && calls[j].key == key && !calls[i].probe && !calls[j].probe ::
      calls[i].outcome.Refused?
  }

  ghost predicate OnlyRefused(calls: seq<Call>, key: Key) {
    forall i | 0 <= i < |calls| && calls[i].key == key && !calls[i].probe :: calls[i].outcome.Refused?
  }

  /** Submissions are sent at most once per key, and a key outside the ledger was never delivered. */
  ghost predicate Guarded(s: Router) {
    && (forall key :: SentOnce(s.calls, key) && (key !in s.ledger ==> OnlyRefused(s.calls, key)))
    && ProbesAreMarked(s.calls)
  }

  /** Every probe goes out under the one identity probes use. */
  ghost predicate ProbesAreMarked(calls: seq<Call>) {
    forall i | 0 <= i < |calls| && calls[i].probe :: calls[i].key == KeyOf(PROBE)
  }

  lemma OneMoreCall(calls: seq<Call>, c: Call, key: Key)
    ensures OnlyRefused(calls, key) ==> SentOnce(calls + [c], key)
    ensures OnlyRefused(calls, key) && (c.key == key && !c.probe ==> c.outcome.Refused?) ==> OnlyRefused(calls + [c], key)
    ensures (c.key != key || c.probe) && SentOnce(calls, key) ==> SentOnce(calls + [c], key)
    ensures ProbesAreMarked(calls) && (c.probe ==> c.key == KeyOf(PROBE)) ==> ProbesAreMarked(calls + [c])
  {}

  /** The part of the state the protocol guards. */
  ghost predicate SameProtocol(s: Router, t: Router) {
    s.ledger == t.ledger && s.quarantined == t.quarantined && s.calls == t.calls && |s.regions| == |t.regions|
    && forall i | 0 <= i < |s.regions| :: s.regions[i].name == t.regions[i].name && s.regions[i].submissions == t.regions[i].submissions
  }

  lemma AfterFailure(s: Router, i: nat, w: World)
    requires i < |s.regions|
    ensures SameProtocol(s, DoFailover(NoteFailure(s, i, w), {}).0)
  {}

  lemma {:induction false} AttemptIsGuarded(s: Router, sub: Submission, tried: set<string>, w: World)
    requires KeyOf(sub) in s.ledger && ProbesAreMarked(s.calls)
    requires forall key | key != KeyOf(sub) :: SentOnce(s.calls, key) && (key !in s.ledger ==> OnlyRefused(s.calls, key))
    requires OnlyRefused(s.calls, KeyOf(sub))
    ensures Guarded(Attempt(s, sub, tried, w).0)
    decreases Names(s.regions) - tried
  {
    hide SentOnce, OnlyRefused, ProbesAreMarked;
    var key := KeyOf(sub);
    var (s1, region) := EnsureActive(s, tried);
    OnlyRefusedIsOnce(s.calls, key);
    if region.None? {
      assert forall k | k != key :: k in s1.ledger - {key} <==> k in s.ledger;
    } else {
      var i := region.value;
      var (s2, o) := Transport(s1, i, sub, false, w);
      assert s.regions[i] in s.regions && s.regions[i].name in Names(s.regions);
      forall k {
        OneMoreCall(s.calls, s2.calls[|s.calls|], k);
      }
      AfterFailure(s2, i, w);
      if o.Refused? {
        var s4 := DoFailover(NoteFailure(s2, i, w), {}).0;
        SameNames(s.regions, s4.regions);
        AttemptIsGuarded(s4, sub, tried + {s.regions[i].name}, w);
      }
    }
  }

  lemma OnlyRefusedIsOnce(calls: seq<Call>, key: Key)
    ensures OnlyRefused(calls, key) ==> SentOnce(calls, key)
  {}

  lemma SubmitIsGuarded(s: Router, sub: Submission, w: World)
    requires Guarded(s)
    ensures Guarded(Submit(s, sub, w).0)
  {
    var key := KeyOf(sub);
    if key !in s.quarantined && key !in s.ledger {
      AttemptIsGuarded(s.(ledger := s.ledger[key := PENDING]), sub, {}, w);
    }
  }

  lemma ProbeIsGuarded(s: Router, i: nat, w: World)
    requires Guarded(s) && i < |s.regions|
    ensures Guarded(Probe(s, i, w).0)
  {
    hide SentOnce, OnlyRefused, ProbesAreMarked;
    var c := Call(KeyOf(PROBE), i, w.outcome(|s.calls|, i), true);
    var t := Probe(s, i, w).0;
    assert t.ledger == s.ledger && (t.calls == s.calls || t.calls == s.calls + [c]);
    OneMoreCall(s.calls, c, c.key);
    forall k ensures SentOnce(t.calls, k) && (k !in t.ledger ==> OnlyRefused(t.calls, k)) {
      OneMoreCall(s.calls, c, k);
    }
  }

  lemma DoIsGuarded(s: Router, op: Op, w: World)
    requires Guarded(s)
    ensures Guarded(Do(s, op, w))
  {
    hide Guarded, Submit, Probe;
    match op
    case Submitted(sub) => SubmitIsGuarded(s, sub, w);
    case Probed(i) =>
      if i < |s.regions| {
        ProbeIsGuarded(s, i, w);
      }
  }

  lemma {:induction false} RunIsGuarded(s: Router, ops: seq<Op>, w: World)
    requires Guarded(s)
    ensures Guarded(Run(s, ops, w))
    decreases |ops|
  {
    if ops != [] {
      RunIsGuarded(s, ops[..|ops| - 1], w);
      DoIsGuarded(Run(s, ops[..|ops| - 1], w), ops[|ops| - 1], w);
    }
  }

  /** At most once across the fleet. Whatever the transport does, however long the fleet is idle and
      however submissions and probes are interleaved, the submissions sent under a key are some
      refusals followed by at most one that was not provably refused, and nothing after it. */
  lemma AtMostOnceAcrossTheFleet(s: Router, ops: seq<Op>, w: World, key: Key)
    requires Initial(s)
    ensures SentOnce(Run(s, ops, w).calls, key)
    ensures key != KeyOf(PROBE) ==> AtMostOnce(Run(s, ops, w).calls, key)
  {
    RunIsGuarded(s, ops, w);
    assert SentOnce(Run(s, ops, w).calls, key);
  }

  /** A probe and a submission under the probe's identity are both delivered. */
  lemma ProbeKeyIsNotGuarded(s: Router, w: World)
    requires Initial(s)
    requires forall n, i :: w.outcome(n, i) == Delivered
    requires s.regions[0].cooldownUntil <= w.clock(s.readings)
    ensures !AtMostOnce(Run(s, [Probed(0), Submitted(PROBE)], w).calls, KeyOf(PROBE))
  {
    var ops := [Probed(0), Submitted(PROBE)];
    assert ops[..1] == [Probed(0)] && ops[..1][..0] == [];
    var s1 := Do(s, Probed(0), w);
    assert Run(s, [], w) == s;
    assert Run(s, ops[..1], w) == s1;
    assert s1.calls == [Call(KeyOf(PROBE), 0, Delivered, true)];
    var s2 := Do(s1, Submitted(PROBE), w);
    assert s2.calls == s1.calls + [Call(KeyOf(PROBE), 0, Delivered, false)];
    assert Run(s, ops, w) == s2;
    assert s2.calls[0].key == s2.calls[1].key == KeyOf(PROBE);
  }

  /** Probes counted, a key is called at most once in every run if and only if it is not the probe's own. */
  lemma AtMostOnceExactly(s: Router, key: Key)
    requires Initial(s)
    ensures (forall ops, w :: AtMostOnce(Run(s, ops, w).calls, key)) <==> key != KeyOf(PROBE)
  {
    if key == KeyOf(PROBE) {
      var w := World((n, i) => Delivered, n => s.regions[0].cooldownUntil);
      ProbeKeyIsNotGuarded(s, w);
    } else {
      forall ops, w ensures AtMostOnce(Run(s, ops, w).calls, key) {
        AtMostOnceAcrossTheFleet(s, ops, w, key);
      }
    }
  }

  // -- conservation ---------------------------------------------------------

  function Sum(regions: seq<Region>): nat {
    if regions == [] then 0 else regions[0].submissions + Sum(regions[1..])
  }

  lemma {:induction false} SumOfSame(a: seq<Region>, b: seq<Region>)
    requires |a| == |b| && forall i | 0 <= i < |a| :: a[i].submissions == b[i].submissions
    ensures Sum(a) == Sum(b)
  {
    if a != [] {
      assert a[0].submissions == b[0].submissions;
      SumOfSame(a[1..], b[1..]);
    }
  }

  lemma {:induction false} SumOfBumped(a: seq<Region>, b: seq<Region>, i: nat)
    requires |a| == |b| && i < |a| && b[i].submissions == a[i].submissions + 1
    requires forall j | 0 <= j < |a| && j != i :: a[j].submissions == b[j].submissions
    ensures Sum(b) == Sum(a) + 1
  {
    if i == 0 {
      SumOfSame(a[1..], b[1..]);
    } else {
      assert a[0].submissions == b[0].submissions;
      SumOfBumped(a[1..], b[1..], i - 1);
    }
  }

  /** Between calls: every recorded key is either quarantined and pending or held by a region, and
      the regions' counters add up to the keys they hold. */
  ghost predicate Conserved(s: Router) {
    && s.quarantined <= s.ledger.Keys
    && (forall k | k in s.quarantined :: s.ledger[k] == PENDING)
    && (forall k | k in s.ledger && k !in s.quarantined :: s.ledger[k] in Names(s.regions))
    && Sum(s.regions) == |s.ledger.Keys - s.quarantined|
  }

  /** The same inside `submit`, with one key's intent open. */
  ghost predicate ConservedBut(s: Router, key: Key) {
    && key in s.ledger && s.ledger[key] == PENDING && key !in s.quarantined
    && s.quarantined <= s.ledger.Keys
    && (forall k | k in s.quarantined :: s.ledger[k] == PENDING)
    && (forall k | k in s.ledger && k !in s.quarantined && k != key :: s.ledger[k] in Names(s.regions))
    && Sum(s.regions) == |s.ledger.Keys - s.quarantined - {key}|
  }

  lemma ProtocolConserves(s: Router, t: Router, key: Key)
    requires ConservedBut(s, key)
    requires s.ledger == t.ledger && s.quarantined == t.quarantined && |s.regions| == |t.regions|
    requires forall i | 0 <= i < |s.regions| :: s.regions[i].name == t.regions[i].name && s.regions[i].submissions == t.regions[i].submissions
    ensures ConservedBut(t, key)
  {
    SameNames(s.regions, t.regions);
    SumOfSame(s.regions, t.regions);
  }

  lemma DeliveryConserves(s: Router, key: Key, i: nat)
    requires ConservedBut(s, key) && i < |s.regions|
    ensures var r := s.regions[i];
            Conserved(s.(regions := s.regions[i := r.(submissions := r.submissions + 1)], ledger := s.ledger[key := r.name]))
  {
    var r := s.regions[i];
    var t := s.(regions := s.regions[i := r.(submissions := r.submissions + 1)], ledger := s.ledger[key := r.name]);
    hide Sum;
    SameNames(s.regions, t.regions);
    SumOfBumped(s.regions, t.regions, i);
    assert r in s.regions && r.name in Names(s.regions);
    assert t.ledger.Keys - t.quarantined == (s.ledger.Keys - s.quarantined - {key}) + {key};
  }

  lemma AmbiguityConserves(s: Router, key: Key)
    requires ConservedBut(s, key)
    ensures Conserved(s.(quarantined := s.quarantined + {key}))
  {
    assert s.ledger.Keys - (s.quarantined + {key}) == s.ledger.Keys - s.quarantined - {key};
  }

  lemma NoRegionConserves(s: Router, key: Key)
    requires ConservedBut(s, key)
    ensures Conserved(s.(ledger := s.ledger - {key}))
  {
    assert (s.ledger - {key}).Keys - s.quarantined == s.ledger.Keys - s.quarantined - {key};
  }

  lemma {:induction false} AttemptConserves(s: Router, sub: Submission, tried: set<string>, w: World)
    requires ConservedBut(s, KeyOf(sub))
    ensures Conserved(Attempt(s, sub, tried, w).0)
    decreases Names(s.regions) - tried
  {
    hide Conserved, ConservedBut, EnsureActive, NoteFailure, DoFailover, KeyOf;
    var key := KeyOf(sub);
    var (s1, region) := EnsureActive(s, tried);
    ProtocolConserves(s, s1, key);
    if region.None? {
      NoRegionConserves(s1, key);
    } else {
      var i := region.value;
      var (s2, o) := Transport(s1, i, sub, false, w);
      ProtocolConserves(s1, s2, key);
      assert s.regions[i] in s.regions && s.regions[i].name in Names(s.regions);
      AfterFailure(s2, i, w);
      var s4 := DoFailover(NoteFailure(s2, i, w), {}).0;
      match o
      case Refused =>
        SameNames(s.regions, s4.regions);
        ProtocolConserves(s2, s4, key);
        AttemptConserves(s4, sub, tried + {s.regions[i].name}, w);
      case Ambiguous =>
        ProtocolConserves(s2, s4, key);
        AmbiguityConserves(s4, key);
      case Delivered =>
        DeliveryConserves(s2, key, i);
    }
  }

  lemma IntentOpens(s: Router, key: Key)
    requires Conserved(s) && key !in s.ledger
    ensures ConservedBut(s.(ledger := s.ledger[key := PENDING]), key)
  {
    hide Names, Sum;
    var s1 := s.(ledger := s.ledger[key := PENDING]);
    assert key !in s.quarantined;
    assert s1.ledger.Keys - s1.quarantined - {key} == s.ledger.Keys - s.quarantined;
    forall k | k in s1.ledger && k !in s1.quarantined && k != key ensures s1.ledger[k] in Names(s1.regions) {
      assert k in s.ledger;
    }
  }

  lemma ProbeConserves(s: Router, i: nat, w: World)
    requires Conserved(s) && i < |s.regions|
    ensures Conserved(Probe(s, i, w).0)
  {
    hide Names, Sum, Probe;
    var t := Probe(s, i, w).0;
    ProbeTouchesHealthOnly(s, i, w);
    SameNames(s.regions, t.regions);
    SumOfSame(s.regions, t.regions);
  }

  lemma ProbeTouchesHealthOnly(s: Router, i: nat, w: World)
    requires i < |s.regions|
    ensures var t := Probe(s, i, w).0; SameProtocol(s.(calls := t.calls), t)
  {}

  lemma DoConserves(s: Router, op: Op, w: World)
    requires Conserved(s)
    ensures Conserved(Do(s, op, w))
  {
    hide Conserved, ConservedBut, Probe;
    match op
    case Submitted(sub) =>
      var key := KeyOf(sub);
      SuppressionConserves(s);
      if key !in s.quarantined && key !in s.ledger {
        IntentOpens(s, key);
        AttemptConserves(s.(ledger := s.ledger[key := PENDING]), sub, {}, w);
      }
    case Probed(i) =>
      if i < |s.regions| {
        ProbeConserves(s, i, w);
      }
  }

  lemma SuppressionConserves(s: Router)
    requires Conserved(s)
    ensures Conserved(s.(suppressed := s.suppressed + 1))
  {}

  lemma {:induction false} RunConserves(s: Router, ops: seq<Op>, w: World)
    requires Conserved(s)
    ensures Conserved(Run(s, ops, w))
    decreases |ops|
  {
    if ops != [] {
      RunConserves(s, ops[..|ops| - 1], w);
      DoConserves(Run(s, ops[..|ops| - 1], w), ops[|ops| - 1], w);
    }
  }

  lemma {:induction false} NothingSubmitted(regions: seq<Region>)
    requires forall r | r in regions :: r.submissions == 0
    ensures Sum(regions) == 0
  {
    if regions != [] {
      assert regions[0] in regions;
      NothingSubmitted(regions[1..]);
    }
  }

  ghost function PendingKeys(s: Router): set<Key> {
    set k | k in s.ledger && s.ledger[k] == PENDING
  }

  /** In every reachable state between calls the fleet's submission counters add up to the keys a region holds;
      and the keys marked pending are the quarantined ones, provided no region is itself named "pending". */
  lemma NothingIsLost(s: Router, ops: seq<Op>, w: World)
    requires Initial(s)
    ensures var t := Run(s, ops, w);
            && Sum(t.regions) == |t.ledger.Keys - t.quarantined|
            && t.quarantined <= t.ledger.Keys && t.quarantined <= PendingKeys(t)
            && (PENDING !in Names(s.regions) ==> PendingKeys(t) == t.quarantined)
  {
    NothingSubmitted(s.regions);
    RunConserves(s, ops, w);
    RunKeepsNames(s, ops, w);
  }

  lemma {:induction false} AttemptKeepsNames(s: Router, sub: Submission, tried: set<string>, w: World)
    ensures Names(Attempt(s, sub, tried, w).0.regions) == Names(s.regions)
    decreases Names(s.regions) - tried
  {
    var (s1, region) := EnsureActive(s, tried);
    if region.Some? {
      var i := region.value;
      var (s2, o) := Transport(s1, i, sub, false, w);
      assert s.regions[i] in s.regions && s.regions[i].name in Names(s.regions);
      AfterFailure(s2, i, w);
      var s4 := DoFailover(NoteFailure(s2, i, w), {}).0;
      SameNames(s.regions, s4.regions);
      if o.Refused? {
        AttemptKeepsNames(s4, sub, tried + {s.regions[i].name}, w);
      } else if o.Delivered? {
        SameNames(s.regions, s.regions[i := s.regions[i].(submissions := s.regions[i].submissions + 1)]);
      }
    }
  }

  lemma {:induction false} RunKeepsNames(s: Router, ops: seq<Op>, w: World)
    ensures Names(Run(s, ops, w).regions) == Names(s.regions)
    decreases |ops|
  {
    if ops != [] {
      hide Names, Attempt, Probe;
      var t := Run(s, ops[..|ops| - 1], w);
      RunKeepsNames(s, ops[..|ops| - 1], w);
      match ops[|ops| - 1]
      case Submitted(sub) =>
        AttemptKeepsNames(t.(ledger := t.ledger[KeyOf(sub) := PENDING]), sub, {}, w);
      case Probed(i) =>
        if i < |t.regions| {
          ProbeTouchesHealthOnly(t, i, w);
          SameNames(t.regions, Probe(t, i, w).0.regions);
        }
    }
  }

  /** A world in which only regions named "pending" can be reached. */
  ghost function OnlyPending(regions: seq<Region>): World {
    World((n: nat, i: nat) => if i < |regions| && regions[i].name == PENDING then Delivered else Refused, n => 0.0)
  }

  /** There, the retry loop ends in such a region, whose deliveries the ledger cannot tell from open intents. */
  lemma {:induction false} LandsOnPending(regions: seq<Region>, s: Router, sub: Submission, tried: set<string>, p: nat)
    requires |s.regions| == |regions| && forall i | 0 <= i < |regions| :: s.regions[i].name == regions[i].name
    requires p < |regions| && s.regions[p].name == PENDING && s.regions[p].Available() && PENDING !in tried
    requires KeyOf(sub) !in s.quarantined
    ensures var t := Attempt(s, sub, tried, OnlyPending(regions)).0;
            KeyOf(sub) in t.ledger && t.ledger[KeyOf(sub)] == PENDING && KeyOf(sub) !in t.quarantined
    decreases Names(s.regions) - tried
  {
    var w := OnlyPending(regions);
    var (s1, region) := EnsureActive(s, tried);
    var i := region.value;
    if s.regions[i].name != PENDING {
      var (s2, o) := Transport(s1, i, sub, false, w);
      assert s.regions[i] in s.regions && s.regions[i].name in Names(s.regions);
      AfterFailure(s2, i, w);
      OthersKeepHealth(s2, i, w);
      var s4 := DoFailover(NoteFailure(s2, i, w), {}).0;
      SameNames(s.regions, s4.regions);
      LandsOnPending(regions, s4, sub, tried + {s.regions[i].name}, p);
    }
  }

  lemma OthersKeepHealth(s: Router, i: nat, w: World)
    requires i < |s.regions|
    ensures var t := DoFailover(NoteFailure(s, i, w), {}).0;
            |t.regions| == |s.regions| && forall j | 0 <= j < |s.regions| && j != i :: t.regions[j] == s.regions[j]
  {}

  /** A submission delivered to a region named "pending" reads as pending, although nothing is quarantined. */
  lemma DeliveredReadsAsPending(s: Router) returns (sub: Submission, w: World)
    requires Initial(s) && PENDING in Names(s.regions)
    ensures var t := Run(s, [Submitted(sub)], w); KeyOf(sub) in PendingKeys(t) && KeyOf(sub) !in t.quarantined
  {
    var r :| r in s.regions && r.name == PENDING;
    var p: nat :| p < |s.regions| && s.regions[p] == r;
    sub, w := Submission("a", "b", 1, 1), OnlyPending(s.regions);
    RunMore(s, [], Submitted(sub), w);
    assert [] + [Submitted(sub)] == [Submitted(sub)];
    LandsOnPending(s.regions, s.(ledger := s.ledger[KeyOf(sub) := PENDING]), sub, {}, p);
  }

  ghost predicate PendingIsQuarantined(s: Router, ops: seq<Op>, w: World) {
    PendingKeys(Run(s, ops, w)) == Run(s, ops, w).quarantined
  }

  /** The pending keys are the quarantined ones in every run if and only if no region is named "pending". */
  lemma PendingExactly(s: Router)
    requires Initial(s)
    ensures (forall ops, w :: PendingIsQuarantined(s, ops, w)) <==> PENDING !in Names(s.regions)
  {
    if PENDING !in Names(s.regions) {
      forall ops, w ensures PendingIsQuarantined(s, ops, w) {
        NothingIsLost(s, ops, w);
      }
    } else {
      var sub, w := DeliveredReadsAsPending(s);
      assert !PendingIsQuarantined(s, [Submitted(sub)], w);
    }
  }

  // -- progress -------------------------------------------------------------

  /** The calls `submit` made since `from`, all refused, name exactly the regions in `tried`. */
  ghost predicate TriedSince(s: Router, from: nat, key: Key, tried: set<string>) {
    && from <= |s.calls|
    && (forall j | from <= j < |s.calls| ::
          s.calls[j].key == key && s.calls[j].outcome.Refused? && s.calls[j].region < |s.regions|)
    && tried == set j | from <= j < |s.calls| && s.calls[j].region < |s.regions| :: s.regions[s.calls[j].region].name
  }

  lemma {:induction false} GivesUpOnlyWhenDone(s: Router, sub: Submission, tried: set<string>, w: World, from: nat)
    requires TriedSince(s, from, KeyOf(sub), tried)
    requires Attempt(s, sub, tried, w).1.NoRegion?
    ensures var t := Attempt(s, sub, tried, w).0;
            && t.ledger == s.ledger - {KeyOf(sub)}
            && exists names :: TriedSince(t, from, KeyOf(sub), names)
                 && forall i | 0 <= i < |t.regions| :: t.regions[i].Available() ==> t.regions[i].name in names
    decreases Names(s.regions) - tried
  {
    var (s1, region) := EnsureActive(s, tried);
    if region.None? {
      var t := Attempt(s, sub, tried, w).0;
      assert TriedSince(t, from, KeyOf(sub), tried);
    } else {
      var i := region.value;
      var (s2, o) := Transport(s1, i, sub, false, w);
      assert o.Refused?;
      assert s.regions[i] in s.regions && s.regions[i].name in Names(s.regions);
      AfterFailure(s2, i, w);
      var s4 := DoFailover(NoteFailure(s2, i, w), {}).0;
      SameNames(s.regions, s4.regions);
      OneMoreTried(s, s4, from, KeyOf(sub), tried, i);
      GivesUpOnlyWhenDone(s4, sub, tried + {s.regions[i].name}, w, from);
    }
  }

  lemma OneMoreTried(s: Router, t: Router, from: nat, key: Key, tried: set<string>, i: nat)
    requires TriedSince(s, from, key, tried) && i < |s.regions|
    requires t.calls == s.calls + [Call(key, i, Refused, false)] && |t.regions| == |s.regions|
    requires forall j | 0 <= j < |s.regions| :: t.regions[j].name == s.regions[j].name
    ensures TriedSince(t, from, key, tried + {s.regions[i].name})
  {
    var names := set j | from <= j < |t.calls| && t.calls[j].region < |t.regions| :: t.regions[t.calls[j].region].name;
    forall n | n in tried ensures n in names {
      var j :| from <= j < |s.calls| && s.calls[j].region < |s.regions| && s.regions[s.calls[j].region].name == n;
      assert t.calls[j] == s.calls[j];
    }
    assert t.calls[|s.calls|].region == i;
    forall n | n in names ensures n in tried + {s.regions[i].name} {
      var j :| from <= j < |t.calls| && t.calls[j].region < |t.regions| && t.regions[t.calls[j].region].name == n;
      if j < |s.calls| {
        assert s.calls[j] == t.calls[j];
      }
    }
  }

  /** "No healthy region" means just that: every region is unavailable, or a region of its name
      refused this very submission. The intent is withdrawn, so the submission can be retried. */
  lemma NoRegionIsHonest(s: Router, sub: Submission, w: World)
    requires Submit(s, sub, w).1.NoRegion?
    ensures var t := Submit(s, sub, w).0;
            && KeyOf(sub) !in t.ledger && t.ledger == s.ledger && |s.calls| <= |t.calls|
            && (forall j | |s.calls| <= j < |t.calls| :: t.calls[j].key == KeyOf(sub) && t.calls[j].outcome.Refused?)
            && forall i | 0 <= i < |t.regions| && t.regions[i].Available() ::
                 exists j :: |s.calls| <= j < |t.calls| && t.calls[j].region < |t.regions|
                             && t.regions[t.calls[j].region].name == t.regions[i].name
  {
    var key := KeyOf(sub);
    var s1 := s.(ledger := s.ledger[key := PENDING]);
    GivesUpOnlyWhenDone(s1, sub, {}, w, |s.calls|);
    var t := Submit(s, sub, w).0;
    var names :| TriedSince(t, |s.calls|, key, names)
                 && forall i | 0 <= i < |t.regions| :: t.regions[i].Available() ==> t.regions[i].name in names;
  }

  // -- health ---------------------------------------------------------------

  /** Failed calls to region `i`, probes and submissions alike, since the last good probe of it. */
  function FailuresSince(calls: seq<Call>, i: nat): nat {
    if calls == [] then 0 else
    var c, before := calls[|calls| - 1], FailuresSince(calls[..|calls| - 1], i);
    if c.region != i then before
    else if !c.outcome.Delivered? then before + 1
    else if c.probe then 0
    else before
  }

  lemma FailuresStep(calls: seq<Call>, c: Call, i: nat)
    ensures FailuresSince(calls + [c], i) ==
            if c.region != i then FailuresSince(calls, i)
            else if !c.outcome.Delivered? then FailuresSince(calls, i) + 1
            else if c.probe then 0
            else FailuresSince(calls, i)
  {
    assert (calls + [c])[..|calls|] == calls;
  }

  /** A region is unavailable exactly when the failures since its last good probe reach its threshold,
      a threshold below one counting as one; and its counter is that number. */
  ghost predicate HealthTracks(regions: seq<Region>, calls: seq<Call>) {
    forall i | 0 <= i < |regions| :: Tracks(regions[i], FailuresSince(calls, i))
  }

  ghost predicate Tracks(r: Region, failures: nat) {
    r.failures == failures && (r.Available() <==> failures == 0 || failures < r.threshold)
  }

  lemma FailedCall(s: Router, i: nat, c: Call, w: World)
    requires i < |s.regions| && HealthTracks(s.regions, s.calls)
    requires c.region == i && !c.outcome.Delivered?
    ensures var s2 := s.(calls := s.calls + [c]);
            && HealthTracks(NoteFailure(s2, i, w).regions, s2.calls)
            && HealthTracks(DoFailover(NoteFailure(s2, i, w), {}).0.regions, s2.calls)
            && DoFailover(NoteFailure(s2, i, w), {}).0.calls == NoteFailure(s2, i, w).calls == s2.calls
  {
    hide FailuresSince;
    var s2 := s.(calls := s.calls + [c]);
    var t := NoteFailure(s2, i, w);
    forall j | 0 <= j < |t.regions| ensures Tracks(t.regions[j], FailuresSince(s2.calls, j)) {
      FailuresStep(s.calls, c, j);
      assert Tracks(s.regions[j], FailuresSince(s.calls, j));
    }
  }

  lemma GoodCall(regions: seq<Region>, i: nat, calls: seq<Call>, c: Call)
    requires i < |regions| && HealthTracks(regions, calls)
    requires c.region == i && c.outcome.Delivered?
    ensures c.probe ==>
              HealthTracks(regions[i := regions[i].(failures := 0, successes := regions[i].successes + 1, health := Healthy)], calls + [c])
    ensures !c.probe ==> HealthTracks(regions[i := regions[i].(submissions := regions[i].submissions + 1)], calls + [c])
  {
    hide FailuresSince;
    forall j | 0 <= j < |regions|
      ensures FailuresSince(calls + [c], j) == if j == i && c.probe then 0 else FailuresSince(calls, j)
      ensures Tracks(regions[j], FailuresSince(calls, j))
    {
      FailuresStep(calls, c, j);
    }
  }

  lemma {:induction false} AttemptKeepsHealth(s: Router, sub: Submission, tried: set<string>, w: World)
    requires HealthTracks(s.regions, s.calls)
    ensures HealthTracks(Attempt(s, sub, tried, w).0.regions, Attempt(s, sub, tried, w).0.calls)
    decreases Names(s.regions) - tried
  {
    var (s1, region) := EnsureActive(s, tried);
    if region.Some? {
      hide HealthTracks, NoteFailure, DoFailover, EnsureActive;
      var i := region.value;
      var (s2, o) := Transport(s1, i, sub, false, w);
      var c := Call(KeyOf(sub), i, o, false);
      assert s.regions[i] in s.regions && s.regions[i].name in Names(s.regions);
      if o.Delivered? {
        GoodCall(s1.regions, i, s1.calls, c);
      } else {
        FailedCall(s1, i, c, w);
        AfterFailure(s2, i, w);
        var s4 := DoFailover(NoteFailure(s2, i, w), {}).0;
        SameNames(s.regions, s4.regions);
        if o.Refused? {
          AttemptKeepsHealth(s4, sub, tried + {s.regions[i].name}, w);
        }
      }
    }
  }

  lemma ProbeKeepsHealth(s: Router, i: nat, w: World)
    requires i < |s.regions| && HealthTracks(s.regions, s.calls)
    ensures HealthTracks(Probe(s, i, w).0.regions, Probe(s, i, w).0.calls)
  {
    hide HealthTracks, NoteFailure;
    var s0 := s.(readings := s.readings + 1);
    var o := w.outcome(|s.calls|, i);
    var c := Call(KeyOf(PROBE), i, o, true);
    if o.Delivered? {
      GoodCall(s.regions, i, s.calls, c);
    } else {
      FailedCall(s0, i, c, w);
    }
  }

  lemma {:induction false} RunKeepsHealth(s: Router, ops: seq<Op>, w: World)
    requires HealthTracks(s.regions, s.calls)
    ensures HealthTracks(Run(s, ops, w).regions, Run(s, ops, w).calls)
    decreases |ops|
  {
    if ops != [] {
      hide HealthTracks, Probe, Attempt;
      RunKeepsHealth(s, ops[..|ops| - 1], w);
      var t := Run(s, ops[..|ops| - 1], w);
      match ops[|ops| - 1]
      case Submitted(sub) =>
        if KeyOf(sub) !in t.quarantined && KeyOf(sub) !in t.ledger {
          AttemptKeepsHealth(t.(ledger := t.ledger[KeyOf(sub) := PENDING]), sub, {}, w);
        }
      case Probed(i) =>
        if i < |t.regions| {
          ProbeKeepsHealth(t, i, w);
        }
    }
  }

  /** In every reachable state, whatever mix of probes, submissions and idle time led there, a region's
      counter is its failed calls since its last good probe, and it is out of service exactly when that
      number has reached its threshold. */
  lemma HealthAlwaysTracks(s: Router, ops: seq<Op>, w: World, i: nat)
    requires Initial(s) && i < |Run(s, ops, w).regions|
    ensures var t := Run(s, ops, w);
            && t.regions[i].failures == FailuresSince(t.calls, i)
            && (!t.regions[i].Available() <==> FailuresSince(t.calls, i) >= (if t.regions[i].threshold > 1 then t.regions[i].threshold else 1))
  {
    hide Run, FailuresSince;
    assert HealthTracks(s.regions, s.calls) by {
      InitialTracks(s);
    }
    RunKeepsHealth(s, ops, w);
    assert Tracks(Run(s, ops, w).regions[i], FailuresSince(Run(s, ops, w).calls, i));
  }

  lemma InitialTracks(s: Router)
    requires Initial(s)
    ensures HealthTracks(s.regions, s.calls)
  {
    forall i | 0 <= i < |s.regions| ensures Tracks(s.regions[i], FailuresSince(s.calls, i)) {
      assert s.regions[i] in s.regions;
    }
  }

  /** Recovery needs no traffic: a region that failed out of service is not called while it cools down, and
      comes back with the first probe after that which gets through. */
  lemma RecoversWhileIdle(s: Router, ops: seq<Op>, w: World, i: nat)
    requires var t := Run(s, ops, w);
             && i < |t.regions| && !t.regions[i].Available()
             && w.clock(t.readings) < t.regions[i].cooldownUntil <= w.clock(t.readings + 1)
             && w.outcome(|t.calls|, i) == Delivered
    ensures var t, later := Run(s, ops, w), Run(s, ops + [Probed(i)] + [Probed(i)], w);
            && Run(s, ops + [Probed(i)], w).calls == t.calls
            && later.calls == t.calls + [Call(KeyOf(PROBE), i, Delivered, true)]
            && |later.regions| == |t.regions| && later.regions[i].Available() && later.regions[i].failures == 0
  {
    hide Run;
    RunMore(s, ops, Probed(i), w);
    RunMore(s, ops + [Probed(i)], Probed(i), w);
  }

  /** `n` probes of the first region, one after another. */
  function Probes(n: nat): seq<Op> { if n == 0 then [] else Probes(n - 1) + [Probed(0)] }

  /** The first `n` calls are refused and the later ones delivered; the clock stands at `start`, and once the
      probes and the failure they end in have read it and one more has, at `later`. */
  ghost function Outage(s: Router, n: nat): World
    requires s.regions != []
  {
    var r := s.regions[0];
    World((c: nat, i: nat) => if c < n then Refused else Delivered,
          (c: nat) => if c <= s.readings + n + 1 then r.cooldownUntil else r.cooldownUntil + r.cooldown)
  }

  /** What `j` refused probes of the first region have made of `s`; the `n`-th takes it out of service. */
  ghost predicate CountedUp(s: Router, t: Router, n: nat, j: nat)
    requires s.regions != []
  {
    var r := s.regions[0];
    && |t.regions| == |s.regions| && |t.calls| == j
    && t.readings == s.readings + j + (if j == n then 1 else 0)
    && t.regions[0].threshold == r.threshold && t.regions[0].cooldown == r.cooldown && t.regions[0].failures == j
    && t.regions[0].health == (if j == n then Unhealthy else Healthy)
    && t.regions[0].cooldownUntil == r.cooldownUntil + (if j == n then r.cooldown else 0.0)
  }

  lemma RefusedProbe(s: Router, t: Router, n: nat, j: nat)
    requires s.regions != [] && j < n == (if s.regions[0].threshold > 1 then s.regions[0].threshold else 1)
    requires CountedUp(s, t, n, j)
    ensures CountedUp(s, Do(t, Probed(0), Outage(s, n)), n, j + 1)
  {
    hide Log;
    var s0 := t.(readings := t.readings + 1);
    var s1 := Transport(s0, 0, PROBE, true, Outage(s, n)).0;
    assert Do(t, Probed(0), Outage(s, n)) == NoteFailure(s1, 0, Outage(s, n));
    LogKeeps(s1, Degrade, Some(0), None);
  }

  lemma LogKeeps(s: Router, kind: Kind, source: Option<nat>, target: Option<nat>)
    ensures var t := Log(s, kind, source, target); t == s.(events := t.events)
  {}

  lemma {:induction false} ProbesCountUp(s: Router, n: nat, j: nat)
    requires Initial(s) && j <= n == (if s.regions[0].threshold > 1 then s.regions[0].threshold else 1)
    ensures CountedUp(s, Run(s, Probes(j), Outage(s, n)), n, j)
    decreases j
  {
    assert s.regions[0] in s.regions;
    if j > 0 {
      hide Run, CountedUp, Do;
      ProbesCountUp(s, n, j - 1);
      RunMore(s, Probes(j - 1), Probed(0), Outage(s, n));
      RefusedProbe(s, Run(s, Probes(j - 1), Outage(s, n)), n, j - 1);
    }
  }

  /** And such a run exists for every fleet whose first region cools down at all: as many refused probes as its
      threshold asks for, then idleness. */
  lemma OutageAndRecovery(s: Router) returns (ops: seq<Op>, w: World)
    requires Initial(s) && s.regions[0].cooldown > 0.0
    ensures |Run(s, ops, w).regions| == |s.regions| && !Run(s, ops, w).regions[0].Available()
    ensures var later := Run(s, ops + [Probed(0)] + [Probed(0)], w);
            && |later.regions| == |s.regions| && later.regions[0].Available()
            && |later.calls| == (if s.regions[0].threshold > 1 then s.regions[0].threshold else 1) + 1
  {
    hide Run;
    var n := if s.regions[0].threshold > 1 then s.regions[0].threshold else 1;
    ops, w := Probes(n), Outage(s, n);
    ProbesCountUp(s, n, n);
    RecoversWhileIdle(s, ops, w, 0);
  }

  // -- the idempotency key --------------------------------------------------

  /** Two submissions share a key exactly when ledger and joined text agree; without bars in
      source or asset that is the logical identity, and the price never enters. */
  lemma {:induction false} KeyIsIdentity(a: Submission, b: Submission)
    requires '|' !in a.source && '|' !in b.source
    ensures KeyOf(a) == KeyOf(b) <==> a.source == b.source && a.asset == b.asset && a.ledger == b.ledger
    decreases |a.source|
  {
    var x, y := a.source + "|" + a.asset, b.source + "|" + b.asset;
    if x == y {
      assert forall k | 0 <= k < |a.source| :: x[k] == a.source[k] && a.source[k] in a.source;
      assert forall k | 0 <= k < |b.source| :: y[k] == b.source[k] && b.source[k] in b.source;
      assert x[|a.source|] == '|' && y[|b.source|] == '|';
      assert |a.source| == |b.source|;
      assert a.source == x[..|a.source|] && b.source == y[..|b.source|];
      assert a.asset == x[|a.source| + 1..] && b.asset == y[|b.source| + 1..];
    }
  }

  /** With a bar in a source two different submissions can collide, and the second is suppressed unsent. */
  lemma BarsCollide()
    ensures KeyOf(Submission("a|b", "c", 1, 1)) == KeyOf(Submission("a", "b|c", 1, 1))
  {
    assert "a|b" + "|" + "c" == "a" + "|" + "b|c";
  }

  /** A key stands for one logical identity, whatever it is compared with, if and only if neither the
      source nor the asset has a bar in it. */
  lemma KeyIsIdentityExactly(a: Submission)
    ensures (forall b: Submission | KeyOf(a) == KeyOf(b) :: a.source == b.source && a.asset == b.asset && a.ledger == b.ledger)
       <==> '|' !in a.source && '|' !in a.asset
  {
    if '|' in a.source {
      var p :| 0 <= p < |a.source| && a.source[p] == '|';
      var b := a.(source := a.source[..p], asset := a.source[p + 1..] + "|" + a.asset);
      assert a.source == a.source[..p] + "|" + a.source[p + 1..];
      assert KeyOf(a) == KeyOf(b) && |b.source| < |a.source|;
    } else if '|' in a.asset {
      var p :| 0 <= p < |a.asset| && a.asset[p] == '|';
      var b := a.(source := a.source + "|" + a.asset[..p], asset := a.asset[p + 1..]);
      assert a.asset == a.asset[..p] + "|" + a.asset[p + 1..];
      assert KeyOf(a) == KeyOf(b) && |b.source| > |a.source|;
    } else {
      forall b: Submission | KeyOf(a) == KeyOf(b) ensures a.source == b.source && a.asset == b.asset && a.ledger == b.ledger {
        NoOtherSplit(a, b);
      }
    }
  }

  lemma NoOtherSplit(a: Submission, b: Submission)
    requires '|' !in a.source && '|' !in a.asset && KeyOf(a) == KeyOf(b)
    ensures '|' !in b.source && a.source == b.source && a.asset == b.asset
  {
    var x, y := a.source + "|" + a.asset, b.source + "|" + b.asset;
    assert forall k | 0 <= k < |x| :: x[k] == '|' <==> k == |a.source| by {
      assert forall k | 0 <= k < |a.source| :: x[k] == a.source[k] && a.source[k] in a.source;
      assert forall k | 0 <= k < |a.asset| :: x[|a.source| + 1 + k] == a.asset[k] && a.asset[k] in a.asset;
      assert forall k | |a.source| < k < |x| :: x[k] == a.asset[k - |a.source| - 1];
    }
    assert y[|b.source|] == '|';
    assert |b.source| == |a.source|;
    assert a.source == x[..|a.source|] && b.source == y[..|b.source|];
    assert forall k | 0 <= k < |b.source| :: y[k] == b.source[k];
    KeyIsIdentity(a, b);
  }
}
