/** The source submission queue: bounded, retrying with capped exponential
    backoff, and never replaying what has gone stale. */
module SourceQueues {
  import opened Options

  /** Durations are whole nanoseconds. */
  datatype Config = Config(maxQueueLen: nat, maxRetries: nat, baseBackoff: nat, maxBackoff: nat, maxAge: nat)

  const U32_MAX := 0xffff_ffff
  /** The longest `Duration`: 2^64 - 1 seconds and 999999999 nanoseconds. */
  const DURATION_MAX := 0x1_0000_0000_0000_0000 * 1_000_000_000 - 1

  /** A pending submission; `tag` stands for the payload and tells submissions apart. */
  datatype Pending = Pending(tag: nat, enqueuedAt: int, attempts: nat)

  datatype Reason = Stale | RetriesExhausted
  datatype Delivery = Delivered | RetryAfter(delay: nat) | Dropped(reason: Reason)

  // -- backoff --------------------------------------------------------------

  function Pow2(n: nat): nat { if n == 0 then 1 else 2 * Pow2(n - 1) }

  function Min(a: nat, b: nat): nat { if a < b then a else b }

  /** `1u32.checked_shl(attempts.saturating_sub(1)).unwrap_or(u32::MAX)`. */
  function Factor(attempts: nat): nat {
    var shift := if attempts == 0 then 0 else attempts - 1;
    if shift < 32 then Pow2(shift) else U32_MAX
  }

  function BackoffFor(c: Config, attempts: nat): nat {
    var product := c.baseBackoff * Factor(attempts);
    Min(if product <= DURATION_MAX then product else c.maxBackoff, c.maxBackoff)
  }

  lemma {:induction false} Pow2Grows(a: nat, b: nat)
    requires a <= b
    ensures 1 <= Pow2(a) <= Pow2(b)
    decreases b
  {
    if a < b {
      Pow2Grows(a, b - 1);
    } else if a > 0 {
      Pow2Grows(a - 1, b - 1);
    }
  }

  lemma Pow31() ensures Pow2(31) == 0x8000_0000
  {
    assert Pow2(8) == 0x100;
    assert Pow2(16) == 0x1_0000;
    assert Pow2(24) == 0x100_0000;
  }

  lemma FactorGrows(a: nat, b: nat)
    requires a <= b
    ensures Factor(a) <= Factor(b)
  {
    var x, y := if a == 0 then 0 else a - 1, if b == 0 then 0 else b - 1;
    if y < 32 {
      Pow2Grows(x, y);
    } else if x < 32 {
      Pow2Grows(x, 31);
      Pow31();
    }
  }

  lemma Scale(base: nat, a: nat, b: nat)
    requires a <= b
    ensures base * a <= base * b
  {}

  /** Backoff never shrinks with more attempts and never passes the cap. */
  lemma BackoffIsMonotone(c: Config, a: nat, b: nat)
    requires c.maxBackoff <= DURATION_MAX && a <= b
    ensures BackoffFor(c, a) <= BackoffFor(c, b) <= c.maxBackoff
  {
    FactorGrows(a, b);
    Scale(c.baseBackoff, Factor(a), Factor(b));
  }

  /** Up to 32 attempts it is exactly the capped doubling, overflow or not; past that the shift
      saturates, the delay stays that of a full u32 factor, and a delay that had reached the cap keeps it. */
  lemma BackoffIsCappedDoubling(c: Config, attempts: nat)
    requires c.maxBackoff <= DURATION_MAX && attempts >= 1
    ensures attempts <= 32 ==> BackoffFor(c, attempts) == Min(c.baseBackoff * Pow2(attempts - 1), c.maxBackoff)
    ensures attempts > 32 ==> BackoffFor(c, attempts) == Min(c.baseBackoff * U32_MAX, c.maxBackoff)
    ensures forall later: nat | later >= attempts ::
              BackoffFor(c, attempts) == c.maxBackoff ==> BackoffFor(c, later) == c.maxBackoff
  {
    forall later: nat | later >= attempts && BackoffFor(c, attempts) == c.maxBackoff
      ensures BackoffFor(c, later) == c.maxBackoff
    {
      BackoffIsMonotone(c, attempts, later);
    }
  }

  // -- the queue ------------------------------------------------------------

  /** `now.duration_since(enqueued_at)`, which saturates at zero. */
  function Age(p: Pending, now: int): nat {
    if now <= p.enqueuedAt then 0 else now - p.enqueuedAt
  }

  /** `drop_stale`: `retain` keeps the order. */
  function Retain(c: Config, queue: seq<Pending>, now: int): (r: seq<Pending>)
    ensures |r| <= |queue|
  {
    if queue == [] then []
    else (if Age(queue[0], now) < c.maxAge then [queue[0]] else []) + Retain(c, queue[1..], now)
  }

  /** Exactly the submissions that are not stale stay. */
  lemma {:induction false} RetainMembers(c: Config, queue: seq<Pending>, now: int, p: Pending)
    ensures p in Retain(c, queue, now) <==> p in queue && Age(p, now) < c.maxAge
  {
    if queue != [] {
      RetainMembers(c, queue[1..], now, p);
      assert queue == [queue[0]] + queue[1..];
    }
  }

  /** At or past the maximum age, a clock that ran backwards counting as no time at all. */
  predicate TooOld(c: Config, p: Pending, now: int) { now >= p.enqueuedAt + c.maxAge || c.maxAge == 0 }

  /** Climbing places of the queue: those of the submissions young enough, and of no other. */
  ghost predicate YoungPlaces(c: Config, queue: seq<Pending>, now: int, at: seq<nat>) {
    && (forall i, j | 0 <= i < j < |at| :: at[i] < at[j])
    && (forall i | 0 <= i < |at| :: at[i] < |queue| && !TooOld(c, queue[at[i]], now))
    && (forall x: nat | x < |queue| && !TooOld(c, queue[x], now) :: x in at)
  }

  function Picked(queue: seq<Pending>, at: seq<nat>): seq<Pending>
    requires forall i | 0 <= i < |at| :: at[i] < |queue|
  {
    seq(|at|, i requires 0 <= i < |at| => queue[at[i]])
  }

  lemma PickedMore(queue: seq<Pending>, before: seq<nat>)
    requires queue != [] && forall i | 0 <= i < |before| :: before[i] < |queue| - 1
    ensures Picked(queue, before) == Picked(queue[..|queue| - 1], before)
    ensures Picked(queue, before + [|queue| - 1]) == Picked(queue[..|queue| - 1], before) + [queue[|queue| - 1]]
  {}

  lemma OnePlaceMore(c: Config, queue: seq<Pending>, now: int, before: seq<nat>)
    requires queue != [] && YoungPlaces(c, queue[..|queue| - 1], now, before)
    ensures YoungPlaces(c, queue, now, before + if TooOld(c, queue[|queue| - 1], now) then [] else [|queue| - 1])
  {
    hide TooOld;
    var n := |queue| - 1;
    var at: seq<nat> := before + if TooOld(c, queue[n], now) then [] else [n];
    forall x: nat | x < |queue| && !TooOld(c, queue[x], now) ensures x in at {
      if x < n {
        assert queue[..n][x] == queue[x];
      }
    }
  }

  lemma AgeTells(c: Config, p: Pending, now: int)
    ensures Age(p, now) < c.maxAge <==> !TooOld(c, p, now)
  {}

  lemma {:induction false} RetainLast(c: Config, queue: seq<Pending>, p: Pending, now: int)
    ensures Retain(c, queue + [p], now) == Retain(c, queue, now) + if Age(p, now) < c.maxAge then [p] else []
  {
    if queue == [] {
      assert [p][1..] == [];
    } else {
      assert (queue + [p])[1..] == queue[1..] + [p];
      RetainLast(c, queue[1..], p, now);
    }
  }

  /** What stays is exactly the young, in the order they had. */
  lemma {:induction false} RetainInOrder(c: Config, queue: seq<Pending>, now: int) returns (at: seq<nat>)
    ensures YoungPlaces(c, queue, now, at)
    ensures Retain(c, queue, now) == Picked(queue, at)
  {
    at := [];
    if queue != [] {
      hide TooOld, Age, Retain, Picked;
      var n := |queue| - 1;
      var before := RetainInOrder(c, queue[..n], now);
      assert queue == queue[..n] + [queue[n]];
      RetainLast(c, queue[..n], queue[n], now);
      AgeTells(c, queue[n], now);
      OnePlaceMore(c, queue, now, before);
      PickedMore(queue, before);
      at := before + if TooOld(c, queue[n], now) then [] else [n];
    }
  }

  lemma RetainNothing(c: Config, now: int)
    ensures Retain(c, [], now) == []
  {}

  lemma RetainStep(c: Config, queue: seq<Pending>, i: nat, now: int)
    requires i < |queue|
    ensures Retain(c, queue[i..], now)
         == (if Age(queue[i], now) < c.maxAge then [queue[i]] else []) + Retain(c, queue[i + 1..], now)
  {
    assert queue[i..][0] == queue[i] && queue[i..][1..] == queue[i + 1..];
  }

  /** What `record_result` returns, and the submission it puts back. */
  function Recorded(c: Config, length: nat, p: Pending, success: bool, now: int): (Delivery, Option<Pending>) {
    if success then (Delivered, None)
    else if Age(p, now) >= c.maxAge then (Dropped(Stale), None)
    else
      var tried := p.(attempts := p.attempts + 1);
      if tried.attempts > c.maxRetries then (Dropped(RetriesExhausted), None)
      else if length >= c.maxQueueLen then (Dropped(RetriesExhausted), None)
      else (RetryAfter(BackoffFor(c, tried.attempts)), Some(tried))
  }

  /** Whether a failed submission may be tried again. */
  predicate Retries(c: Config, length: nat, p: Pending, now: int) {
    !TooOld(c, p, now) && p.attempts + 1 <= c.maxRetries && length < c.maxQueueLen
  }

  /** Each answer in terms of the report: delivered exactly on success; stale exactly on a failure at or past the
      age; queued again, one attempt on, exactly on a failure in time with retries and room left. */
  lemma RecordedExactly(c: Config, length: nat, p: Pending, success: bool, now: int)
    ensures var (d, back) := Recorded(c, length, p, success, now);
            && (d == Delivered <==> success)
            && (d == Dropped(Stale) <==> !success && TooOld(c, p, now))
            && (d.RetryAfter? <==> !success && Retries(c, length, p, now))
            && (d.RetryAfter? ==> d == RetryAfter(BackoffFor(c, p.attempts + 1)))
            && back == if d.RetryAfter? then Some(p.(attempts := p.attempts + 1)) else None
  {
    hide BackoffFor;
  }

  class SourceSubmissionQueue {
    const config: Config
    var queue: seq<Pending>

    constructor (config: Config)
      ensures this.config == config && queue == []
    {
      this.config := config;
      queue := [];
    }

    method Enqueue(tag: nat, now: int) returns (accepted: bool)
      modifies this
      ensures accepted == (|old(queue)| < config.maxQueueLen)
      ensures queue == old(queue) + if accepted then [Pending(tag, now, 0)] else []
    {
      if |queue| >= config.maxQueueLen { return false; }
      queue := queue + [Pending(tag, now, 0)];
      accepted := true;
    }

    /** Never hands out a stale submission: drops every one of them, then pops the oldest left. */
    method NextForDelivery(now: int) returns (r: Option<Pending>)
      modifies this
      ensures var young := Retain(config, old(queue), now);
              if young == [] then r == None && queue == []
              else r == Some(young[0]) && queue == young[1..] && !TooOld(config, young[0], now)
    {
      DropStale(now);
      if queue == [] { return None; }
      RetainMembers(config, old(queue), now, queue[0]);
      r := Some(queue[0]);
      queue := queue[1..];
    }

    method DropStale(now: int)
      modifies this
      ensures queue == Retain(config, old(queue), now)
    {
      hide Retain;
      RetainNothing(config, now);
      var kept: seq<Pending>, i := [], 0;
      ghost var all := Retain(config, queue, now);
      assert queue[0..] == queue;
      while i < |queue|
        invariant 0 <= i <= |queue| && queue == old(queue)
        invariant kept + Retain(config, queue[i..], now) == all
      {
        RetainStep(config, queue, i, now);
        if Age(queue[i], now) < config.maxAge {
          kept := kept + [queue[i]];
        }
        i := i + 1;
      }
      queue := kept;
    }

    method RecordResult(p: Pending, success: bool, now: int) returns (r: Delivery)
      modifies this
      ensures r == Delivered <==> success
      ensures r == Dropped(Stale) <==> !success && TooOld(config, p, now)
      ensures r.RetryAfter? <==> !success && Retries(config, |old(queue)|, p, now)
      ensures r.RetryAfter? ==> r == RetryAfter(BackoffFor(config, p.attempts + 1))
      ensures queue == old(queue) + if r.RetryAfter? then [p.(attempts := p.attempts + 1)] else []
      ensures (r, if r.RetryAfter? then Some(queue[|queue| - 1]) else None) == Recorded(config, |old(queue)|, p, success, now)
    {
      if success { return Delivered; }
      if Age(p, now) >= config.maxAge { return Dropped(Stale); }
      var tried := p.(attempts := p.attempts + 1);
      if tried.attempts > config.maxRetries { return Dropped(RetriesExhausted); }
      var delay := BackoffFor(config, tried.attempts);
      if |queue| >= config.maxQueueLen { return Dropped(RetriesExhausted); }
      queue := queue + [tried];
      r := RetryAfter(delay);
    }
  }

  // -- whole runs -----------------------------------------------------------

  /** A submission handed out, and when. */
  datatype Handout = Handout(p: Pending, at: int)

  /** The queue and its caller: what is out for delivery, the tallies, and every hand-out so far. */
  datatype System = System(
    queue: seq<Pending>, out: set<Pending>, delivered: nat, dropped: nat, accepted: nat, log: seq<Handout>)

  datatype Step = Offer(now: int) | Take(now: int) | Report(p: Pending, success: bool, now: int)

  /** Accepted submissions are tagged by arrival. */
  function Next(c: Config, s: System, step: Step): System {
    match step
    case Offer(now) =>
      if |s.queue| >= c.maxQueueLen then s
      else s.(queue := s.queue + [Pending(s.accepted, now, 0)], accepted := s.accepted + 1)
    case Take(now) =>
      var young := Retain(c, s.queue, now);
      var dropped := s.dropped + |s.queue| - |young|;
      if young == [] then s.(queue := [], dropped := dropped)
      else s.(queue := young[1..], out := s.out + {young[0]}, dropped := dropped,
              log := s.log + [Handout(young[0], now)])
    case Report(p, success, now) =>
      if p !in s.out then s else
      var (d, back) := Recorded(c, |s.queue|, p, success, now);
      s.(out := s.out - {p},
         queue := if back.Some? then s.queue + [back.value] else s.queue,
         delivered := if d.Delivered? then s.delivered + 1 else s.delivered,
         dropped := if d.Dropped? then s.dropped + 1 else s.dropped)
  }

  function Run(c: Config, steps: seq<Step>): System {
    if steps == [] then System([], {}, 0, 0, 0, []) else Next(c, Run(c, steps[..|steps| - 1]), steps[|steps| - 1])
  }

  /** How often submission `tag` was handed out. */
  function Times(log: seq<Handout>, tag: nat): nat {
    if log == [] then 0 else Times(log[..|log| - 1], tag) + if log[|log| - 1].p.tag == tag then 1 else 0
  }

  lemma TimesOneMore(log: seq<Handout>, h: Handout)
    ensures forall t: nat :: Times(log + [h], t) == Times(log, t) + if h.p.tag == t then 1 else 0
  {
    assert (log + [h])[..|log|] == log;
  }

  /** No two places hold the same submission. */
  ghost predicate Apart(queue: seq<Pending>, out: set<Pending>) {
    && (forall i, j | 0 <= i < j < |queue| :: queue[i].tag != queue[j].tag)
    && (forall p, q | p in out && q in out && p.tag == q.tag :: p == q)
    && (forall p, q | p in queue && q in out :: p.tag != q.tag)
  }

  lemma PopApart(queue: seq<Pending>, out: set<Pending>)
    requires Apart(queue, out) && queue != []
    ensures Apart(queue[1..], out + {queue[0]}) && queue[0] !in out
    ensures forall q | q in queue[1..] :: q in queue && q.tag != queue[0].tag
  {
    assert queue[0] in queue;
    forall q | q in queue[1..] ensures q in queue && q.tag != queue[0].tag {
      var i :| 0 <= i < |queue[1..]| && queue[1..][i] == q;
      assert queue[i + 1] == q;
    }
  }

  /** Each live submission is in one place, and has been handed out once per attempt so far. */
  ghost predicate Inv(c: Config, s: System) {
    && s.accepted == |s.queue| + |s.out| + s.delivered + s.dropped
    && |s.queue| <= c.maxQueueLen
    && Apart(s.queue, s.out)
    && (forall p | p in s.queue :: p.tag < s.accepted && Times(s.log, p.tag) == p.attempts <= c.maxRetries)
    && (forall p | p in s.out :: p.tag < s.accepted && Times(s.log, p.tag) == p.attempts + 1 <= c.maxRetries + 1)
    && (forall t: nat :: Times(s.log, t) <= if t < s.accepted then c.maxRetries + 1 else 0)
    && (forall i | 0 <= i < |s.log| :: !TooOld(c, s.log[i].p, s.log[i].at))
  }

  lemma {:induction false} RetainKeepsDistinct(c: Config, queue: seq<Pending>, now: int)
    requires forall i, j | 0 <= i < j < |queue| :: queue[i].tag != queue[j].tag
    ensures var r := Retain(c, queue, now); forall i, j | 0 <= i < j < |r| :: r[i].tag != r[j].tag
  {
    if queue != [] {
      RetainKeepsDistinct(c, queue[1..], now);
      var tail, r := Retain(c, queue[1..], now), Retain(c, queue, now);
      forall j | 0 <= j < |tail| ensures queue[0].tag != tail[j].tag {
        RetainMembers(c, queue[1..], now, tail[j]);
        var k :| 0 <= k < |queue[1..]| && queue[1..][k] == tail[j];
        assert queue[k + 1] == tail[j];
      }
      forall i, j | 0 <= i < j < |r| ensures r[i].tag != r[j].tag {
        if |r| > |tail| {
          assert r[j] == tail[j - 1];
          assert r[i] == if i == 0 then queue[0] else tail[i - 1];
        }
      }
    }
  }

  lemma OfferKeepsInv(c: Config, s: System, now: int)
    requires Inv(c, s)
    ensures Inv(c, Next(c, s, Offer(now)))
  {}

  lemma StaleKeepsInv(c: Config, s: System, now: int)
    requires Inv(c, s)
    ensures var young := Retain(c, s.queue, now);
            Inv(c, s.(queue := young, dropped := s.dropped + |s.queue| - |young|))
  {
    RetainKeepsDistinct(c, s.queue, now);
    forall p | p in Retain(c, s.queue, now) ensures p in s.queue { RetainMembers(c, s.queue, now, p); }
  }

  lemma PopKeepsInv(c: Config, s: System, now: int)
    requires Inv(c, s) && s.queue != [] && !TooOld(c, s.queue[0], now)
    ensures var p := s.queue[0];
            Inv(c, s.(queue := s.queue[1..], out := s.out + {p}, log := s.log + [Handout(p, now)]))
  {
    hide Times, Apart, TooOld;
    var p := s.queue[0];
    PopApart(s.queue, s.out);
    TimesOneMore(s.log, Handout(p, now));
    assert |s.out + {p}| == |s.out| + 1;
    assert p in s.queue;
  }

  lemma ReportKeepsInv(c: Config, s: System, p: Pending, success: bool, now: int)
    requires Inv(c, s) && p in s.out
    ensures Inv(c, Next(c, s, Report(p, success, now)))
  {
    var t := Next(c, s, Report(p, success, now));
    assert |t.out| == |s.out| - 1;
    var back := Recorded(c, |s.queue|, p, success, now).1;
    forall q | q in t.queue ensures q in s.queue || (back.Some? && q == back.value) {}
  }

  lemma TakeKeepsInv(c: Config, s: System, now: int)
    requires Inv(c, s)
    ensures Inv(c, Next(c, s, Take(now)))
  {
    hide Inv, Retain;
    StaleKeepsInv(c, s, now);
    var young := Retain(c, s.queue, now);
    var mid := s.(queue := young, dropped := s.dropped + |s.queue| - |young|);
    if young != [] {
      RetainMembers(c, s.queue, now, young[0]);
      PopKeepsInv(c, mid, now);
    } else {
      assert Next(c, s, Take(now)) == mid;
    }
  }

  lemma {:induction false} RunKeepsInv(c: Config, steps: seq<Step>)
    ensures Inv(c, Run(c, steps))
    decreases |steps|
  {
    if steps != [] {
      hide Inv, Next;
      var s, step := Run(c, steps[..|steps| - 1]), steps[|steps| - 1];
      RunKeepsInv(c, steps[..|steps| - 1]);
      StepKeepsInv(c, s, step);
    }
  }

  lemma StepKeepsInv(c: Config, s: System, step: Step)
    requires Inv(c, s)
    ensures Inv(c, Next(c, s, step))
  {
    hide Inv;
    match step
    case Offer(now) => OfferKeepsInv(c, s, now);
    case Take(now) => TakeKeepsInv(c, s, now);
    case Report(p, success, now) =>
      if p in s.out {
        ReportKeepsInv(c, s, p, success, now);
      }
  }

  /** Over any run in which popped submissions are handed back as they were popped: every accepted one is queued, out,
      delivered or dropped; the queue stays bounded; none is handed out more than `max_retries` + 1 times, and none,
      first try or retry, once it has reached `max_submission_age`. */
  lemma NoneLostNoneRepeated(c: Config, steps: seq<Step>)
    ensures var s := Run(c, steps);
            && s.accepted == |s.queue| + |s.out| + s.delivered + s.dropped
            && |s.queue| <= c.maxQueueLen
            && (forall t: nat :: Times(s.log, t) <= c.maxRetries + 1)
            && (forall i | 0 <= i < |s.log| :: !TooOld(c, s.log[i].p, s.log[i].at))
  {
    RunKeepsInv(c, steps);
  }

  // -- what was delivered ---------------------------------------------------

  /** The reports of success, on a submission that was out, among the steps of a run. */
  ghost function Successes(c: Config, steps: seq<Step>): set<nat> {
    set i: nat | i < |steps| && Succeeds(c, steps, i)
  }

  ghost predicate Succeeds(c: Config, steps: seq<Step>, i: nat)
    requires i < |steps|
  {
    steps[i].Report? && steps[i].success && steps[i].p in Run(c, steps[..i]).out
  }

  lemma SucceedsBefore(c: Config, steps: seq<Step>, i: nat)
    requires i < |steps| - 1
    ensures Succeeds(c, steps[..|steps| - 1], i) <==> Succeeds(c, steps, i)
  {
    hide Run;
    assert steps[..|steps| - 1][..i] == steps[..i];
  }

  lemma SuccessesGrow(c: Config, steps: seq<Step>)
    requires steps != []
    ensures |Successes(c, steps)| == |Successes(c, steps[..|steps| - 1])| + if Succeeds(c, steps, |steps| - 1) then 1 else 0
  {
    var n := |steps| - 1;
    forall i: nat | i < n ensures Succeeds(c, steps[..n], i) <==> Succeeds(c, steps, i) {
      SucceedsBefore(c, steps, i);
    }
    hide Succeeds;
    assert Successes(c, steps) == Successes(c, steps[..n]) + if Succeeds(c, steps, n) then {n} else {};
  }

  /** The delivered tally counts exactly those. */
  lemma {:induction false} DeliveredCounts(c: Config, steps: seq<Step>)
    ensures Run(c, steps).delivered == |Successes(c, steps)|
    decreases |steps|
  {
    if steps == [] {
      assert Successes(c, steps) == {};
    } else {
      hide Next, Successes;
      DeliveredCounts(c, steps[..|steps| - 1]);
      SuccessesGrow(c, steps);
      NextDelivers(c, Run(c, steps[..|steps| - 1]), steps[|steps| - 1]);
    }
  }

  lemma NextDelivers(c: Config, s: System, step: Step)
    ensures Next(c, s, step).delivered == s.delivered + if step.Report? && step.success && step.p in s.out then 1 else 0
  {
    hide Retain, BackoffFor;
    if step.Report? {
      RecordedExactly(c, |s.queue|, step.p, step.success, step.now);
    }
  }

  /** Accepted, and neither queued nor out. */
  ghost predicate Gone(s: System, tag: nat) {
    tag < s.accepted && (forall p | p in s.queue :: p.tag != tag) && (forall p | p in s.out :: p.tag != tag)
  }

  lemma NextKeepsGone(c: Config, s: System, step: Step, tag: nat)
    requires Gone(s, tag)
    ensures Gone(Next(c, s, step), tag) && Times(Next(c, s, step).log, tag) == Times(s.log, tag)
  {
    hide BackoffFor, Times;
    match step
    case Offer(now) =>
    case Take(now) =>
      var young := Retain(c, s.queue, now);
      forall p | p in young ensures p in s.queue {
        RetainMembers(c, s.queue, now, p);
      }
      if young != [] {
        TimesOneMore(s.log, Handout(young[0], now));
        assert young[0] in young && forall p | p in young[1..] :: p in young;
      }
    case Report(p, success, now) =>
      RecordedExactly(c, |s.queue|, p, success, now);
  }

  lemma SuccessIsGone(c: Config, s: System, step: Step)
    requires Inv(c, s) && step.Report? && step.success && step.p in s.out
    ensures Gone(Next(c, s, step), step.p.tag) && Next(c, s, step).log == s.log
  {
    hide BackoffFor, Times;
    RecordedExactly(c, |s.queue|, step.p, step.success, step.now);
  }

  /** What was reported delivered is never handed out again. */
  lemma {:induction false} DeliveredIsOver(c: Config, steps: seq<Step>, i: nat)
    requires i in Successes(c, steps)
    ensures Gone(Run(c, steps), steps[i].p.tag)
    ensures Times(Run(c, steps).log, steps[i].p.tag) == Times(Run(c, steps[..i]).log, steps[i].p.tag)
    decreases |steps|
  {
    hide Next, Inv, Gone, Times;
    var n := |steps| - 1;
    if i == n {
      RunKeepsInv(c, steps[..n]);
      SuccessIsGone(c, Run(c, steps[..n]), steps[n]);
    } else {
      assert steps[..n][..i] == steps[..i];
      DeliveredIsOver(c, steps[..n], i);
      NextKeepsGone(c, Run(c, steps[..n]), steps[n], steps[i].p.tag);
    }
  }
}
