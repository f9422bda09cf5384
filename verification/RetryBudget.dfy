/** The shared retry budget: one token bucket, one slot counter and a deadline
    per call, under every interleaving of the callers that share them. */
module RetryBudgets {
  import opened Options

  datatype Policy = Policy(
    maxAttempts: int, attemptTimeout: real, deadline: real, maxInFlight: int,
    retryRatio: real, bucketSize: real, baseBackoff: real, maxBackoff: real)
  {
    /** What `__post_init__` admits. */
    predicate Valid() {
      && maxAttempts >= 1 && maxInFlight >= 1
      && attemptTimeout > 0.0 && deadline > 0.0
      && retryRatio >= 0.0 && bucketSize >= 0.0
      && 0.0 <= baseBackoff <= maxBackoff
    }
  }

  function Min(a: real, b: real): real { if a <= b then a else b }
  function Max(a: real, b: real): real { if a <= b then b else a }

  function Pow2(n: nat): real { if n == 0 then 1.0 else 2.0 * Pow2(n - 1) }

  /** Backoff after the `attempt`-th failed attempt, counted from one. */
  function Backoff(p: Policy, attempt: nat): real
    requires attempt >= 1
  {
    Min(p.maxBackoff, p.baseBackoff * Pow2(attempt - 1))
  }

  /** The first backoff is the base; each next one is twice the last, up to the cap. */
  lemma BackoffIsCappedDoubling(p: Policy, attempt: nat)
    requires p.Valid() && attempt >= 1
    ensures Backoff(p, 1) == p.baseBackoff
    ensures Backoff(p, attempt + 1) == (if 2.0 * Backoff(p, attempt) <= p.maxBackoff then 2.0 * Backoff(p, attempt) else p.maxBackoff)
  {
    var x := p.baseBackoff * Pow2(attempt - 1);
    assert p.baseBackoff * Pow2(attempt) == 2.0 * x by { Doubles(p.baseBackoff, Pow2(attempt - 1)); }
  }

  lemma Doubles(a: real, b: real)
    ensures a * (2.0 * b) == 2.0 * (a * b)
  {}

  /** What the bucket can ever have held across `calls` admitted calls. */
  function Allowance(p: Policy, calls: nat): real { p.bucketSize + p.retryRatio * calls as real }

  /** The stated bound on total attempts across `calls` admitted calls. */
  function MaxAttemptsFor(p: Policy, calls: nat): real {
    calls as real + Min((calls * (p.maxAttempts - 1)) as real, Allowance(p, calls))
  }

  /** Where a call stands: about to check its deadline; its timeout fixed, waiting to be counted; inside
      `op`; its retry paid for; its sleep fixed; or over, its slot given back. */
  datatype Phase = Ready | Checked(timeout: real) | Trying(timeout: real) | Paid | Napping(bound: real) | Over

  /** `elapsed` is the time since `start`, `waited` the part of it spent outside `op` and `sleep` (on the lock,
      or not scheduled), `late` the part of that since the last deadline check that was passed;
      `honest` says that its operations and sleeps kept their bounds. */
  datatype Call = Call(phase: Phase, attempts: nat, retries: nat, elapsed: real, waited: real, late: real, honest: bool)

  const ADMITTED := Call(Ready, 0, 0, 0.0, 0.0, 0.0, true)

  datatype Budget = Budget(tokens: real, inFlight: int, calls: nat, attempts: nat, retries: nat, rejected: nat, live: seq<Call>)

  function Fresh(p: Policy): Budget {
    Budget(p.bucketSize, 0, 0, 0, 0, 0, [])
  }

  /** One atomic step of one caller. Durations are what actually passed, bounded or not. */
  datatype Step =
    | Acquire
    | Check(i: nat)
    | Begin(i: nat)
    | Succeed(i: nat, took: real)
    | FailForGood(i: nat, took: real)
    | FailRetryable(i: nat, took: real)
    | Plan(i: nat)
    | Sleep(i: nat, took: real)
    | Wait(i: nat, took: real)

  predicate Enabled(b: Budget, step: Step) {
    match step
    case Acquire => true
    case Check(i) => i < |b.live| && b.live[i].phase.Ready?
    case Begin(i) => i < |b.live| && b.live[i].phase.Checked?
    case Succeed(i, took) => i < |b.live| && b.live[i].phase.Trying? && took >= 0.0
    case FailForGood(i, took) => i < |b.live| && b.live[i].phase.Trying? && took >= 0.0
    case FailRetryable(i, took) => i < |b.live| && b.live[i].phase.Trying? && took >= 0.0
    case Plan(i) => i < |b.live| && b.live[i].phase.Paid?
    case Sleep(i, took) => i < |b.live| && b.live[i].phase.Napping? && took >= 0.0
    case Wait(i, took) => i < |b.live| && !b.live[i].phase.Over? && took >= 0.0
  }

  /** `_acquire`. */
  function DoAcquire(b: Budget, p: Policy): Budget {
    if b.inFlight >= p.maxInFlight then b.(rejected := b.rejected + 1)
    else b.(inFlight := b.inFlight + 1, calls := b.calls + 1, tokens := Min(p.bucketSize, b.tokens + p.retryRatio),
            live := b.live + [ADMITTED])
  }

  /** The `finally` of `call`. */
  function Finish(b: Budget, i: nat, c: Call): Budget
    requires i < |b.live|
  {
    b.(inFlight := b.inFlight - 1, live := b.live[i := c.(phase := Over)])
  }

  /** The end of `op`: time passed, and whether it kept to the timeout it was handed. */
  function Elapse(c: Call, took: real): Call
    requires c.phase.Trying?
  {
    c.(elapsed := c.elapsed + took, honest := c.honest && took <= c.phase.timeout)
  }

  function SleepBound(p: Policy, c: Call): real
    requires c.attempts >= 1
  {
    Max(0.0, Min(Backoff(p, c.attempts), p.deadline - c.elapsed))
  }

  function Next(b: Budget, p: Policy, step: Step): Budget
    requires Enabled(b, step)
  {
    match step
    case Acquire => DoAcquire(b, p)
    case Check(i) =>
      var c := b.live[i];
      var remaining := p.deadline - c.elapsed;
      if remaining <= 0.0 then Finish(b, i, c).(rejected := b.rejected + 1)
      else b.(live := b.live[i := c.(phase := Checked(Min(p.attemptTimeout, remaining)), late := 0.0)])
    case Begin(i) =>
      var c := b.live[i];
      b.(attempts := b.attempts + 1, live := b.live[i := c.(phase := Trying(c.phase.timeout), attempts := c.attempts + 1)])
    case Succeed(i, took) => Finish(b, i, Elapse(b.live[i], took))
    case FailForGood(i, took) => Finish(b, i, Elapse(b.live[i], took))
    case FailRetryable(i, took) =>
      var c := Elapse(b.live[i], took);
      if c.attempts >= p.maxAttempts then Finish(b, i, c).(rejected := b.rejected + 1)
      else if b.tokens < 1.0 then Finish(b, i, c).(rejected := b.rejected + 1)
      else b.(tokens := b.tokens - 1.0, retries := b.retries + 1, live := b.live[i := c.(phase := Paid, retries := c.retries + 1)])
    case Plan(i) =>
      var c := b.live[i];
      b.(live := b.live[i := c.(phase := Napping(if c.attempts >= 1 then SleepBound(p, c) else 0.0))])
    case Sleep(i, took) =>
      var c := b.live[i];
      b.(live := b.live[i := c.(phase := Ready, elapsed := c.elapsed + took, honest := c.honest && took <= c.phase.bound)])
    case Wait(i, took) =>
      var c := b.live[i];
      b.(live := b.live[i := c.(elapsed := c.elapsed + took, waited := c.waited + took, late := c.late + took)])
  }

  // -- what a step does -----------------------------------------------------

  /** The shared counters after a step, by what the call at hand is doing. */
  ghost predicate Counts(b: Budget, p: Policy, step: Step, t: Budget)
    requires Enabled(b, step)
  {
    match step
    case Acquire =>
      if b.inFlight < p.maxInFlight then
        && Shared(t, b.inFlight + 1, b.calls + 1, b.attempts, b.retries, b.rejected)
        && t.tokens <= p.bucketSize && t.tokens <= b.tokens + p.retryRatio && (t.tokens == p.bucketSize || t.tokens == b.tokens + p.retryRatio)
      else Shared(t, b.inFlight, b.calls, b.attempts, b.retries, b.rejected + 1) && t.tokens == b.tokens
    case Check(i) =>
      t.tokens == b.tokens &&
      if b.live[i].elapsed < p.deadline then Shared(t, b.inFlight, b.calls, b.attempts, b.retries, b.rejected)
      else Shared(t, b.inFlight - 1, b.calls, b.attempts, b.retries, b.rejected + 1)
    case Begin(i) => t.tokens == b.tokens && Shared(t, b.inFlight, b.calls, b.attempts + 1, b.retries, b.rejected)
    case FailRetryable(i, took) =>
      if b.live[i].attempts < p.maxAttempts && b.tokens >= 1.0 then
        t.tokens == b.tokens - 1.0 && Shared(t, b.inFlight, b.calls, b.attempts, b.retries + 1, b.rejected)
      else t.tokens == b.tokens && Shared(t, b.inFlight - 1, b.calls, b.attempts, b.retries, b.rejected + 1)
    case Succeed(_, _) => t.tokens == b.tokens && Shared(t, b.inFlight - 1, b.calls, b.attempts, b.retries, b.rejected)
    case FailForGood(_, _) => t.tokens == b.tokens && Shared(t, b.inFlight - 1, b.calls, b.attempts, b.retries, b.rejected)
    case _ => t.tokens == b.tokens && Shared(t, b.inFlight, b.calls, b.attempts, b.retries, b.rejected)
  }

  ghost predicate Shared(t: Budget, inFlight: int, calls: nat, attempts: nat, retries: nat, rejected: nat) {
    t.inFlight == inFlight && t.calls == calls && t.attempts == attempts && t.retries == retries && t.rejected == rejected
  }

  /** The time a step takes of the call at hand, and the bound it must keep to be honest. */
  ghost predicate Times(b: Budget, p: Policy, step: Step, t: Budget)
    requires Enabled(b, step) && !step.Acquire?
  {
    step.i < |t.live| &&
    var c, d := b.live[step.i], t.live[step.i];
    match step
    case Check(_) => d.elapsed == c.elapsed && d.honest == c.honest && (d.phase.Over? <==> c.elapsed >= p.deadline)
    case Begin(_) => d.elapsed == c.elapsed && d.honest == c.honest
    case Plan(_) =>
      && d.elapsed == c.elapsed && d.honest == c.honest
      && (c.attempts >= 1 ==>
            var left := p.deadline - c.elapsed;
            d.phase == Napping(if left <= 0.0 then 0.0 else if left <= Backoff(p, c.attempts) then left else Backoff(p, c.attempts)))
    case Sleep(_, took) => d.elapsed == c.elapsed + took && d.waited == c.waited && (d.honest <==> c.honest && took <= c.phase.bound)
    case Wait(_, took) => d.elapsed == c.elapsed + took && d.waited == c.waited + took && d.honest == c.honest
    case Succeed(_, took) => Tried(c, d, took)
    case FailForGood(_, took) => Tried(c, d, took)
    case FailRetryable(_, took) => Tried(c, d, took)
  }

  /** Where the step leaves the call, and how often it has tried and retried; every other call stays as it was. */
  ghost predicate Moves(b: Budget, p: Policy, step: Step, t: Budget)
    requires Enabled(b, step) && !step.Acquire?
  {
    && |t.live| == |b.live| && (forall j | 0 <= j < |b.live| && j != step.i :: t.live[j] == b.live[j])
    && var c, d := b.live[step.i], t.live[step.i];
       && d.attempts == c.attempts + (if step.Begin? then 1 else 0)
       && d.retries == c.retries + (if step.FailRetryable? && !d.phase.Over? then 1 else 0)
       && match step
          case Check(_) =>
            if c.elapsed >= p.deadline then d.phase.Over?
            else d.phase.Checked? && d.phase.timeout <= p.attemptTimeout && d.phase.timeout <= p.deadline - c.elapsed
                 && d.phase.timeout in [p.attemptTimeout, p.deadline - c.elapsed]
          case Begin(_) => d.phase == Trying(c.phase.timeout)
          case Succeed(_, _) => d.phase.Over?
          case FailForGood(_, _) => d.phase.Over?
          case FailRetryable(_, _) => d.phase == if c.attempts < p.maxAttempts && b.tokens >= 1.0 then Paid else Over
          case Plan(_) => d.phase.Napping?
          case Sleep(_, _) => d.phase.Ready?
          case Wait(_, _) => d.phase == c.phase
  }

  /** A call that is admitted starts at its first deadline check, with nothing spent; the others stay as they were. */
  lemma AdmittedTells(b: Budget, p: Policy)
    ensures var t := Next(b, p, Acquire);
            && (b.inFlight < p.maxInFlight ==> t.live == b.live + [Call(Ready, 0, 0, 0.0, 0.0, 0.0, true)])
            && (b.inFlight >= p.maxInFlight ==> t.live == b.live)
  {}

  ghost predicate Tried(c: Call, d: Call, took: real)
    requires c.phase.Trying?
  {
    d.elapsed == c.elapsed + took && d.waited == c.waited && (d.honest <==> c.honest && took <= c.phase.timeout)
  }

  lemma {:induction false} BackoffIsNotNegative(p: Policy, attempt: nat)
    requires p.Valid() && attempt >= 1
    ensures Backoff(p, attempt) >= 0.0
    decreases attempt
  {
    if attempt > 1 {
      BackoffIsNotNegative(p, attempt - 1);
      BackoffIsCappedDoubling(p, attempt - 1);
    } else {
      BackoffIsCappedDoubling(p, attempt);
    }
  }

  lemma StepTells(b: Budget, p: Policy, step: Step)
    requires p.Valid() && Enabled(b, step)
    ensures Counts(b, p, step, Next(b, p, step))
    ensures !step.Acquire? ==> Times(b, p, step, Next(b, p, step)) && Moves(b, p, step, Next(b, p, step))
  {
    hide Backoff;
    if step.Plan? && b.live[step.i].attempts >= 1 {
      BackoffIsNotNegative(p, b.live[step.i].attempts);
    }
  }

  /** The budget after `steps` from `b`, if each was enabled in turn. */
  function Run(b: Budget, p: Policy, steps: seq<Step>): (r: Option<Budget>) {
    if steps == [] then Some(b) else
    var before := Run(b, p, steps[..|steps| - 1]);
    if before.Some? && Enabled(before.value, steps[|steps| - 1]) then Some(Next(before.value, p, steps[|steps| - 1])) else None
  }


  // -- sums over the calls --------------------------------------------------

  function Attempts(cs: seq<Call>): nat { if cs == [] then 0 else Attempts(cs[..|cs| - 1]) + cs[|cs| - 1].attempts }
  function Retries(cs: seq<Call>): nat { if cs == [] then 0 else Retries(cs[..|cs| - 1]) + cs[|cs| - 1].retries }
  function Alive(cs: seq<Call>): nat { if cs == [] then 0 else Alive(cs[..|cs| - 1]) + (if cs[|cs| - 1].phase.Over? then 0 else 1) }

  lemma {:induction false} SumsAfterUpdate(cs: seq<Call>, i: nat, c: Call)
    requires i < |cs|
    ensures Attempts(cs[i := c]) == Attempts(cs) - cs[i].attempts + c.attempts
    ensures Retries(cs[i := c]) == Retries(cs) - cs[i].retries + c.retries
    ensures Alive(cs[i := c]) == Alive(cs) - (if cs[i].phase.Over? then 0 else 1) + (if c.phase.Over? then 0 else 1)
    decreases |cs|
  {
    var n := |cs| - 1;
    if i < n {
      assert cs[i := c][..n] == cs[..n][i := c];
      SumsAfterUpdate(cs[..n], i, c);
    } else {
      assert cs[i := c][..n] == cs[..n];
    }
  }

  lemma SumsAfterAppend(cs: seq<Call>, c: Call)
    ensures Attempts(cs + [c]) == Attempts(cs) + c.attempts
    ensures Retries(cs + [c]) == Retries(cs) + c.retries
    ensures Alive(cs + [c]) == Alive(cs) + (if c.phase.Over? then 0 else 1)
  {
    assert (cs + [c])[..|cs|] == cs;
  }

  // -- the invariant --------------------------------------------------------

  /** Each attempt but the first was paid for, and an honest call is past its deadline by no more than it
      waited since the last check it passed. */
  ghost predicate CallInv(c: Call, p: Policy) {
    && c.attempts <= c.retries + 1
    && c.retries <= p.maxAttempts - 1
    && 0.0 <= c.late <= c.waited
    && (c.honest ==> c.elapsed <= p.deadline + c.late)
    && match c.phase
       case Ready => c.attempts == c.retries
       case Checked(timeout) => c.attempts == c.retries && InTime(c, p, timeout)
       case Trying(timeout) => 1 <= c.attempts == c.retries + 1 && InTime(c, p, timeout)
       case Paid => 1 <= c.attempts == c.retries
       case Napping(bound) => 1 <= c.attempts == c.retries && (c.honest ==> c.elapsed + bound <= p.deadline + c.late)
       case Over => true
  }

  /** The timeout was cut to what remained when the deadline was last checked. */
  ghost predicate InTime(c: Call, p: Policy, timeout: real) {
    c.elapsed + timeout <= p.deadline + c.late && timeout <= p.attemptTimeout
  }

  ghost predicate Inv(b: Budget, p: Policy) {
    && 0.0 <= b.tokens <= p.bucketSize
    && b.tokens + b.retries as real <= Allowance(p, b.calls)
    && |b.live| == b.calls
    && b.attempts == Attempts(b.live) && b.retries == Retries(b.live) && b.inFlight == Alive(b.live)
    && b.inFlight <= p.maxInFlight
    && forall i | 0 <= i < |b.live| :: CallInv(b.live[i], p)
  }

  lemma AcquireKeepsInv(b: Budget, p: Policy)
    requires p.Valid() && Inv(b, p)
    ensures Inv(DoAcquire(b, p), p)
  {
    hide Attempts, Retries, Alive;
    if b.inFlight < p.maxInFlight {
      SumsAfterAppend(b.live, ADMITTED);
      OneMoreCall(p.retryRatio, b.calls);
    }
  }

  lemma OneMoreCall(ratio: real, calls: nat)
    ensures ratio * (calls + 1) as real == ratio * calls as real + ratio
  {
    assert (calls + 1) as real == calls as real + 1.0;
  }

  /** A step of an admitted call moves that call and the shared counters by the same amounts, and a
      token leaves the bucket exactly when a retry is counted. */
  lemma StepEffect(b: Budget, p: Policy, step: Step)
    requires Enabled(b, step) && !step.Acquire?
    ensures var t := Next(b, p, step);
            var c, d := b.live[step.i], t.live[step.i];
            && t.calls == b.calls && t.live == b.live[step.i := d]
            && t.attempts - b.attempts == d.attempts - c.attempts
            && t.retries - b.retries == d.retries - c.retries
            && !c.phase.Over? && t.inFlight - b.inFlight == (if d.phase.Over? then -1 else 0)
            && t.tokens + t.retries as real == b.tokens + b.retries as real
            && t.tokens <= b.tokens && (0.0 <= b.tokens ==> 0.0 <= t.tokens)
  {}

  lemma StepKeepsCall(b: Budget, p: Policy, step: Step)
    requires p.Valid() && Enabled(b, step) && !step.Acquire?
    requires CallInv(b.live[step.i], p)
    ensures CallInv(Next(b, p, step).live[step.i], p)
  {
    hide Backoff;
  }

  lemma StepKeepsInv(b: Budget, p: Policy, step: Step)
    requires p.Valid() && Inv(b, p) && Enabled(b, step)
    ensures Inv(Next(b, p, step), p)
  {
    if step.Acquire? {
      AcquireKeepsInv(b, p);
    } else {
      hide Next, CallInv, Attempts, Retries, Alive, Enabled, Allowance;
      assert step.i < |b.live| by { EnabledIsLive(b, step); }
      StepEffect(b, p, step);
      StepKeepsCall(b, p, step);
      SumsAfterUpdate(b.live, step.i, Next(b, p, step).live[step.i]);
    }
  }

  lemma EnabledIsLive(b: Budget, step: Step)
    requires Enabled(b, step) && !step.Acquire?
    ensures step.i < |b.live|
  {}

  lemma {:induction false} RunKeepsInv(b: Budget, p: Policy, steps: seq<Step>)
    requires p.Valid() && Inv(b, p)
    ensures Run(b, p, steps).Some? ==> Inv(Run(b, p, steps).value, p)
    decreases |steps|
  {
    hide Next, Inv, Enabled;
    if steps != [] {
      RunKeepsInv(b, p, steps[..|steps| - 1]);
      var before := Run(b, p, steps[..|steps| - 1]);
      if before.Some? && Enabled(before.value, steps[|steps| - 1]) {
        StepKeepsInv(before.value, p, steps[|steps| - 1]);
      }
    }
  }

  lemma FreshInv(p: Policy)
    requires p.Valid()
    ensures Inv(Fresh(p), p)
  {}

  lemma {:induction false} SumBounds(cs: seq<Call>, p: Policy)
    requires forall i | 0 <= i < |cs| :: CallInv(cs[i], p)
    ensures Attempts(cs) <= Retries(cs) + |cs|
    ensures Retries(cs) <= |cs| * (p.maxAttempts - 1)
    decreases |cs|
  {
    if cs != [] {
      var n, each := |cs| - 1, p.maxAttempts - 1;
      SumBounds(cs[..n], p);
      assert cs[n].attempts <= cs[n].retries + 1 && cs[n].retries <= each by { assert CallInv(cs[n], p); }
      assert |cs| * each == n * each + each;
      hide CallInv;
    }
  }

  /** The fleet-wide caps, in every reachable state of every interleaving. */
  lemma FleetIsBounded(p: Policy, steps: seq<Step>)
    requires p.Valid() && Run(Fresh(p), p, steps).Some?
    ensures var b := Run(Fresh(p), p, steps).value;
            && 0.0 <= b.tokens <= p.bucketSize
            && b.retries as real <= Allowance(p, b.calls)
            && b.attempts as real <= MaxAttemptsFor(p, b.calls)
            && b.attempts <= b.calls * p.maxAttempts && b.attempts as real <= b.calls as real + p.bucketSize + p.retryRatio * b.calls as real
            && b.inFlight == Alive(b.live) && 0 <= b.inFlight <= p.maxInFlight
  {
    hide Run, MaxAttemptsFor, Allowance;
    FreshInv(p);
    RunKeepsInv(Fresh(p), p, steps);
    InvBounds(Run(Fresh(p), p, steps).value, p);
    MaxAttemptsTells(p, Run(Fresh(p), p, steps).value.calls);
  }

  /** The stated bound is the lesser of the two: every call at its cap, or every call once and the allowance spent. */
  lemma MaxAttemptsTells(p: Policy, calls: nat)
    requires p.Valid()
    ensures var (capped, paid) := ((calls * p.maxAttempts) as real, calls as real + p.bucketSize + p.retryRatio * calls as real);
            MaxAttemptsFor(p, calls) == if capped <= paid then capped else paid
  {
    assert calls * p.maxAttempts == calls + calls * (p.maxAttempts - 1);
  }

  lemma InvBounds(b: Budget, p: Policy)
    requires p.Valid() && Inv(b, p)
    ensures b.retries as real <= Allowance(p, b.calls)
    ensures b.attempts as real <= MaxAttemptsFor(p, b.calls)
  {
    hide Attempts, Retries, Alive, Allowance;
    SumBounds(b.live, p);
    assert b.retries as real <= (b.calls * (p.maxAttempts - 1)) as real;
  }

  /** A call whose attempts and sleeps honour their bounds overruns its deadline by no more than the time it
      waited, on the lock or for the processor, since the last deadline check it passed; a call that waits
      for nothing is never past its deadline. */
  lemma HonestCallsMeetTheDeadline(p: Policy, steps: seq<Step>, i: nat)
    requires p.Valid() && Run(Fresh(p), p, steps).Some? && i < |Run(Fresh(p), p, steps).value.live|
    ensures var c := Run(Fresh(p), p, steps).value.live[i];
            && c.attempts <= p.maxAttempts
            && 0.0 <= c.late <= c.waited
            && (c.honest ==> c.elapsed <= p.deadline + c.late)
            && (c.honest && c.waited == 0.0 ==> c.elapsed <= p.deadline)
  {
    FreshInv(p);
    RunKeepsInv(Fresh(p), p, steps);
    assert CallInv(Run(Fresh(p), p, steps).value.live[i], p);
  }

  /** The bound is tight: under every policy, for every `w`, some honest call that waits `w` after its last
      deadline check ends exactly that much late. */
  lemma WaitingMakesLate(p: Policy, w: real) returns (steps: seq<Step>)
    requires p.Valid() && w >= 0.0
    ensures Run(Fresh(p), p, steps).Some? && |Run(Fresh(p), p, steps).value.live| == 1
    ensures var c := Run(Fresh(p), p, steps).value.live[0];
            c.honest && c.phase.Over? && c.late == w && c.elapsed == p.deadline + w
  {
    var timeout := Min(p.attemptTimeout, p.deadline);
    var b := Fresh(p);
    NoSteps(b, p);
    steps := [];
    steps, b := OneStep(p, steps, b, Acquire);
    steps, b := OneStep(p, steps, b, Wait(0, p.deadline - timeout));
    steps, b := OneStep(p, steps, b, Check(0));
    steps, b := OneStep(p, steps, b, Wait(0, w));
    steps, b := OneStep(p, steps, b, Begin(0));
    steps, b := OneStep(p, steps, b, Succeed(0, timeout));
  }

  lemma OneStep(p: Policy, steps: seq<Step>, b: Budget, step: Step) returns (more: seq<Step>, next: Budget)
    requires Run(Fresh(p), p, steps) == Some(b) && Enabled(b, step)
    ensures next == Next(b, p, step) && Run(Fresh(p), p, more) == Some(next)
  {
    OneMoreStep(Fresh(p), p, steps, b, step);
    more, next := steps + [step], Next(b, p, step);
  }

  /** In every run, every honest call that waits at most `w` after its last deadline check meets its deadline. */
  ghost predicate AlwaysOnTime(p: Policy, w: real) {
    forall steps, i: nat | Run(Fresh(p), p, steps).Some? && i < |Run(Fresh(p), p, steps).value.live| ::
      var c := Run(Fresh(p), p, steps).value.live[i]; c.honest && c.late <= w ==> c.elapsed <= p.deadline
  }

  /** The deadline is met in every run if and only if nothing is waited after a deadline check. */
  lemma DeadlineExactly(p: Policy, w: real)
    requires p.Valid() && w >= 0.0
    ensures AlwaysOnTime(p, w) <==> w == 0.0
  {
    hide Run;
    if w == 0.0 {
      forall steps, i: nat | Run(Fresh(p), p, steps).Some? && i < |Run(Fresh(p), p, steps).value.live|
        ensures var c := Run(Fresh(p), p, steps).value.live[i]; c.honest && c.late <= w ==> c.elapsed <= p.deadline
      {
        HonestCallsMeetTheDeadline(p, steps, i);
      }
    } else {
      var steps := WaitingMakesLate(p, w);
      var c := Run(Fresh(p), p, steps).value.live[0];
      assert c.honest && c.late <= w && c.elapsed > p.deadline;
    }
  }

  // -- the code -------------------------------------------------------------

  datatype Outcome = Succeeds | Fatal | Retryable

  /** What the n-th attempt of a call comes to and how long it takes. */
  datatype Attempted = Attempted(outcome: Outcome, took: real)

  datatype Result = Returned | Raised | InFlightCap | AttemptsCap | BudgetCap | DeadlineCap

  lemma OneMoreStep(b: Budget, p: Policy, steps: seq<Step>, m: Budget, step: Step)
    requires Run(b, p, steps) == Some(m) && Enabled(m, step)
    ensures Run(b, p, steps + [step]) == Some(Next(m, p, step))
  {
    assert (steps + [step])[..|steps|] == steps;
  }

  class RetryBudget {
    const policy: Policy
    var tokens: real
    var inFlight: int
    var calls: nat
    var attempts: nat
    var retries: nat
    var rejected: nat
    /** Every admitted call, for the proof. */
    ghost var live: seq<Call>

    ghost function View(): Budget
      reads this
    {
      Budget(tokens, inFlight, calls, attempts, retries, rejected, live)
    }

    constructor (policy: Policy)
      ensures this.policy == policy && View() == Fresh(policy)
    {
      this.policy := policy;
      tokens, inFlight, calls, attempts, retries, rejected := policy.bucketSize, 0, 0, 0, 0, 0;
      live := [];
    }

    method Admit() returns (ok: bool)
      modifies this
      ensures View() == DoAcquire(old(View()), policy)
      ensures ok == (old(inFlight) < policy.maxInFlight)
      ensures inFlight == old(inFlight) + (if ok then 1 else 0) && calls == old(calls) + (if ok then 1 else 0)
      ensures rejected == old(rejected) + (if ok then 0 else 1) && attempts == old(attempts) && retries == old(retries)
      ensures tokens == if !ok then old(tokens) else if old(tokens) + policy.retryRatio <= policy.bucketSize
                        then old(tokens) + policy.retryRatio else policy.bucketSize
    {
      if inFlight >= policy.maxInFlight {
        rejected := rejected + 1;
        return false;
      }
      inFlight := inFlight + 1;
      calls := calls + 1;
      tokens := Min(policy.bucketSize, tokens + policy.retryRatio);
      live := live + [ADMITTED];
      ok := true;
    }

    method TakeRetryToken() returns (ok: bool)
      modifies this`tokens, this`retries
      ensures ok == (old(tokens) >= 1.0)
      ensures tokens == old(tokens) - (if ok then 1.0 else 0.0) && retries == old(retries) + (if ok then 1 else 0)
    {
      if tokens < 1.0 { return false; }
      tokens := tokens - 1.0;
      retries := retries + 1;
      ok := true;
    }

    /** The `finally` of `call`. */
    method Release(ghost i: nat, ghost c: Call)
      requires i < |live|
      modifies this`inFlight, this`live
      ensures View() == Finish(old(View()), i, c)
    {
      inFlight := inFlight - 1;
      live := live[i := c.(phase := Over)];
    }

    /** The deadline check: the timeout of the next attempt, or the end of the call. */
    method CheckDeadline(ghost i: nat, elapsed: real) returns (timeout: Option<real>)
      requires Enabled(View(), Check(i)) && live[i].elapsed == elapsed
      modifies this
      ensures View() == Next(old(View()), policy, Check(i))
      ensures timeout.Some? <==> elapsed < policy.deadline
      ensures timeout.Some? ==> timeout.value <= policy.attemptTimeout && timeout.value <= policy.deadline - elapsed
                                && timeout.value in [policy.attemptTimeout, policy.deadline - elapsed]
      ensures rejected == old(rejected) + (if timeout.Some? then 0 else 1)
    {
      var remaining := policy.deadline - elapsed;
      if remaining <= 0.0 {
        rejected := rejected + 1;
        Release(i, live[i]);
        return None;
      }
      timeout := Some(Min(policy.attemptTimeout, remaining));
      live := live[i := live[i].(phase := Checked(timeout.value), late := 0.0)];
    }

    /** One more attempt, counted under the lock. */
    method BeginAttempt(ghost i: nat)
      requires Enabled(View(), Begin(i))
      modifies this
      ensures View() == Next(old(View()), policy, Begin(i))
    {
      attempts := attempts + 1;
      live := live[i := live[i].(phase := Trying(live[i].phase.timeout), attempts := live[i].attempts + 1)];
    }

    /** What `call` does once `op` is over; `None` when a retry has been paid for. */
    method Settle(ghost i: nat, attempt: nat, tried: Attempted) returns (r: Option<Result>)
      requires tried.took >= 0.0 && Enabled(View(), Succeed(i, tried.took)) && live[i].attempts == attempt
      modifies this
      ensures View() == Next(old(View()), policy, EndOf(i, tried))
      ensures r == Some(Returned) <==> tried.outcome.Succeeds?
      ensures r == Some(Raised) <==> tried.outcome.Fatal?
      ensures r == Some(AttemptsCap) <==> tried.outcome.Retryable? && attempt >= policy.maxAttempts
      ensures r == Some(BudgetCap) <==> tried.outcome.Retryable? && attempt < policy.maxAttempts && old(tokens) < 1.0
      ensures r.None? <==> tried.outcome.Retryable? && attempt < policy.maxAttempts && old(tokens) >= 1.0
      ensures rejected == old(rejected) + (if r in [Some(AttemptsCap), Some(BudgetCap)] then 1 else 0)
      ensures tokens == old(tokens) - (if r.None? then 1.0 else 0.0) && retries == old(retries) + (if r.None? then 1 else 0)
    {
      ghost var c := Elapse(live[i], tried.took);
      if !tried.outcome.Retryable? {
        Release(i, c);
        return Some(if tried.outcome.Succeeds? then Returned else Raised);
      }
      if attempt >= policy.maxAttempts {
        rejected := rejected + 1;
        Release(i, c);
        return Some(AttemptsCap);
      }
      var paid := TakeRetryToken();
      if !paid {
        rejected := rejected + 1;
        Release(i, c);
        return Some(BudgetCap);
      }
      live := live[i := c.(phase := Paid, retries := c.retries + 1)];
      r := None;
    }

    /** One pass of the retry loop up to the end of `op`: over, or with a retry paid for. */
    method AttemptOnce(ghost i: nat, attempt: nat, elapsed: real, op: (nat, real) -> Attempted, wait: real,
                       ghost start: Budget, ghost steps: seq<Step>)
      returns (settled: Option<Result>, spent: real, ghost more: seq<Step>)
      requires forall n: nat, bound :: op(n, bound).took >= 0.0
      requires wait >= 0.0 && attempt < policy.maxAttempts
      requires Enabled(View(), Check(i)) && live[i].attempts == attempt && live[i].elapsed == elapsed
      requires Run(start, policy, steps) == Some(View())
      modifies this
      ensures Run(start, policy, more) == Some(View())
      ensures |live| == old(|live|) && inFlight == old(inFlight) - (if settled.None? then 0 else 1)
      ensures attempts == old(attempts) + (if settled == Some(DeadlineCap) then 0 else 1)
      ensures settled.None? ==> attempt + 1 < policy.maxAttempts && Enabled(View(), Plan(i))
                                && live[i].attempts == attempt + 1 && live[i].elapsed == elapsed + spent
      ensures settled == Some(AttemptsCap) ==> attempt + 1 == policy.maxAttempts
      ensures settled != Some(InFlightCap)
    {
      hide Run, Min;
      OneMoreStep(start, policy, steps, View(), Check(i));
      var timeout := CheckDeadline(i, elapsed);
      more := steps + [Check(i)];
      if timeout.None? { return Some(DeadlineCap), 0.0, more; }
      more := Idle(i, wait, start, more);
      OneMoreStep(start, policy, more, View(), Begin(i));
      more := more + [Begin(i)];
      BeginAttempt(i);
      var tried := op(attempts, timeout.value);
      OneMoreStep(start, policy, more, View(), EndOf(i, tried));
      more := more + [EndOf(i, tried)];
      settled := Settle(i, attempt + 1, tried);
      spent := wait + tried.took;
    }

    /** `call`, alone on the budget but waiting `wait(n)` for the lock before each attempt and `pause(n)` after
        it. It is a run of the atomic steps above, makes at most `max_attempts` attempts, and always gives
        its slot back. */
    method Perform(op: (nat, real) -> Attempted, nap: (nat, real) -> real, wait: nat -> real, pause: nat -> real)
      returns (r: Result, ghost steps: seq<Step>)
      requires policy.Valid() && forall n: nat, bound :: op(n, bound).took >= 0.0 && nap(n, bound) >= 0.0
      requires forall n :: wait(n) >= 0.0 && pause(n) >= 0.0
      modifies this
      ensures Run(old(View()), policy, steps) == Some(View())
      ensures inFlight == old(inFlight)
      ensures attempts <= old(attempts) + policy.maxAttempts
      ensures r.InFlightCap? <==> old(inFlight) >= policy.maxInFlight
      ensures r.AttemptsCap? ==> attempts == old(attempts) + policy.maxAttempts
    {
      hide Run, Next;
      ghost var start := View();
      assert Run(start, policy, []) == Some(start) by { NoSteps(start, policy); }
      var ok := Admit();
      assert View() == Next(start, policy, Acquire) by { AcquireIsStep(start, policy); }
      OneMoreStep(start, policy, [], start, Acquire);
      steps := [] + [Acquire];
      if !ok { return InFlightCap, steps; }
      ghost var i := |live| - 1;
      var attempt: nat, elapsed := 0, 0.0;
      while true
        invariant i < |live| && live[i].phase.Ready? && live[i].attempts == attempt && live[i].elapsed == elapsed
        invariant attempt < policy.maxAttempts
        invariant inFlight == start.inFlight + 1 && attempts == start.attempts + attempt
        invariant Run(start, policy, steps) == Some(View())
        decreases policy.maxAttempts - attempt
      {
        var settled, spent;
        settled, spent, steps := AttemptOnce(i, attempt, elapsed, op, wait(attempt), start, steps);
        if settled.Some? { return settled.value, steps; }
        attempt, elapsed := attempt + 1, elapsed + spent;
        var slept;
        slept, steps := BackOff(i, attempt, elapsed, pause(attempt), nap, start, steps);
        elapsed := elapsed + pause(attempt) + slept;
      }
    }

    /** The sleep between two attempts, bounded by the backoff and by what remains. */
    method BackOff(ghost i: nat, attempt: nat, elapsed: real, pause: real, nap: (nat, real) -> real,
                   ghost start: Budget, ghost steps: seq<Step>)
      returns (slept: real, ghost more: seq<Step>)
      requires forall n, bound :: nap(n, bound) >= 0.0
      requires policy.Valid() && pause >= 0.0 && Enabled(View(), Plan(i)) && 1 <= attempt == live[i].attempts && live[i].elapsed == elapsed
      requires Run(start, policy, steps) == Some(View())
      modifies this`live
      ensures var left := policy.deadline - elapsed - pause;
              slept == nap(attempts, if left <= 0.0 then 0.0 else if left <= Backoff(policy, attempt) then left else Backoff(policy, attempt))
      ensures |live| == old(|live|) && live[i].phase.Ready?
      ensures live[i].attempts == attempt && live[i].elapsed == elapsed + pause + slept
      ensures Run(start, policy, more) == Some(View())
    {
      hide Run, Backoff;
      BackoffIsNotNegative(policy, attempt);
      more := Idle(i, pause, start, steps);
      var bound := Max(0.0, Min(Backoff(policy, attempt), policy.deadline - elapsed - pause));
      OneMoreStep(start, policy, more, View(), Plan(i));
      more := more + [Plan(i)];
      live := Next(View(), policy, Plan(i)).live;
      slept := nap(attempts, bound);
      OneMoreStep(start, policy, more, View(), Sleep(i, slept));
      more := more + [Sleep(i, slept)];
      live := Next(View(), policy, Sleep(i, slept)).live;
    }

    /** Time passes for the call and nothing else happens. */
    ghost method Idle(i: nat, took: real, start: Budget, steps: seq<Step>) returns (more: seq<Step>)
      requires Enabled(View(), Wait(i, took)) && Run(start, policy, steps) == Some(View())
      modifies this`live
      ensures View() == Next(old(View()), policy, Wait(i, took))
      ensures Run(start, policy, more) == Some(View())
    {
      hide Run;
      OneMoreStep(start, policy, steps, View(), Wait(i, took));
      more := steps + [Wait(i, took)];
      live := Next(View(), policy, Wait(i, took)).live;
    }
  }

  function EndOf(i: nat, tried: Attempted): Step {
    match tried.outcome
    case Succeeds => Succeed(i, tried.took)
    case Fatal => FailForGood(i, tried.took)
    case Retryable => FailRetryable(i, tried.took)
  }

  lemma EndTells(i: nat, tried: Attempted)
    ensures EndOf(i, tried).Succeed? <==> tried.outcome.Succeeds?
    ensures EndOf(i, tried).FailForGood? <==> tried.outcome.Fatal?
    ensures EndOf(i, tried).FailRetryable? <==> tried.outcome.Retryable?
    ensures EndOf(i, tried).i == i && EndOf(i, tried).took == tried.took
  {}

  lemma AcquireIsStep(b: Budget, p: Policy)
    ensures Next(b, p, Acquire) == DoAcquire(b, p)
  {}

  lemma NoSteps(b: Budget, p: Policy)
    ensures Run(b, p, []) == Some(b)
  {}
}
