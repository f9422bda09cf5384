/** What the router's event log and success counters say, in terms of the calls it made. */
module Outages {
  import opened Options
  import opened Routing

  /** The failures it takes to put a region out of service: its threshold, and at least one. */
  function Limit(r: Region): int { if r.threshold > 1 then r.threshold else 1 }

  /** The degradations among the events, in order. */
  function Degradations(events: seq<Event>): seq<Event> {
    if events == [] then [] else
    Degradations(events[..|events| - 1]) + if events[|events| - 1].kind.Degrade? then [events[|events| - 1]] else []
  }

  /** The degradations the calls make: one whenever the failures of a region since its last good probe reach the limit. */
  function Losses(calls: seq<Call>, regions: seq<Region>): seq<Event> {
    if calls == [] then [] else
    var c := calls[|calls| - 1];
    Losses(calls[..|calls| - 1], regions)
    + if !c.outcome.Delivered? && c.region < |regions| && FailuresSince(calls, c.region) == Limit(regions[c.region])
      then [Event(Degrade, Some(regions[c.region].name), None)] else []
  }

  /** Good probes of region `i` since the last failed call to it. */
  function SuccessesSince(calls: seq<Call>, i: nat): nat {
    if calls == [] then 0 else
    var c, before := calls[|calls| - 1], SuccessesSince(calls[..|calls| - 1], i);
    if c.region != i then before else if !c.outcome.Delivered? then 0 else if c.probe then before + 1 else before
  }

  lemma DegradationsMore(events: seq<Event>, e: Event)
    ensures Degradations(events + [e]) == Degradations(events) + if e.kind.Degrade? then [e] else []
  {
    assert (events + [e])[..|events|] == events;
  }

  lemma CallsMore(calls: seq<Call>, c: Call, regions: seq<Region>)
    ensures Losses(calls + [c], regions) == Losses(calls, regions)
            + if !c.outcome.Delivered? && c.region < |regions| && FailuresSince(calls + [c], c.region) == Limit(regions[c.region])
              then [Event(Degrade, Some(regions[c.region].name), None)] else []
    ensures forall i :: SuccessesSince(calls + [c], i) ==
              if c.region != i then SuccessesSince(calls, i) else if !c.outcome.Delivered? then 0
              else if c.probe then SuccessesSince(calls, i) + 1 else SuccessesSince(calls, i)
  {
    hide FailuresSince;
    assert (calls + [c])[..|calls|] == calls;
  }

  /** Counters, health and event log are what the calls make of a fleet configured as `first`. */
  ghost predicate Told(first: seq<Region>, logged: seq<Event>, t: Router) {
    && |t.regions| == |first|
    && (forall i | 0 <= i < |first| :: t.regions[i].name == first[i].name && t.regions[i].threshold == first[i].threshold
                                       && t.regions[i].successes == SuccessesSince(t.calls, i))
    && HealthTracks(t.regions, t.calls)
    && Degradations(t.events) == logged + Losses(t.calls, first)
  }

  /** A failed call, counted and logged. */
  lemma FailureTold(first: seq<Region>, logged: seq<Event>, s: Router, i: nat, c: Call, w: World)
    requires Told(first, logged, s) && i < |s.regions| && c.region == i && !c.outcome.Delivered?
    ensures Told(first, logged, NoteFailure(s.(calls := s.calls + [c]), i, w))
  {
    hide FailuresSince, Losses, SuccessesSince, Degradations, HealthTracks;
    var s2 := s.(calls := s.calls + [c]);
    var t := NoteFailure(s2, i, w);
    CallsMore(s.calls, c, first);
    FailedCall(s, i, c, w);
    FailuresStep(s.calls, c, i);
    assert Tracks(s.regions[i], FailuresSince(s.calls, i)) by { TracksAt(s, i); }
    DegradationsMore(s.events, Event(Degrade, Some(s.regions[i].name), None));
  }

  lemma TracksAt(s: Router, i: nat)
    requires HealthTracks(s.regions, s.calls) && i < |s.regions|
    ensures Tracks(s.regions[i], FailuresSince(s.calls, i))
  {}

  /** A failover logs one event, of where it went from and to, and degrades nothing. */
  lemma FailoverTells(s: Router, skip: set<string>)
    ensures var (t, chosen) := DoFailover(s, skip);
            && t == s.(active := chosen, events := t.events)
            && t.events == s.events + [if chosen.Some? then Event(Failover, Name(s, s.active), Some(s.regions[chosen.value].name))
                                       else Event(Unavailable, Name(s, s.active), None)]
  {}

  /** Keeping the active region logs nothing; otherwise one event, from nowhere, and with nowhere to go the region stays. */
  lemma EnsuringTells(s: Router, skip: set<string>)
    ensures var (t, chosen) := EnsureActive(s, skip);
            if s.active.Some? && s.active.value < |s.regions| && s.regions[s.active.value].Available() && s.regions[s.active.value].name !in skip
            then t == s && chosen == s.active
            else && t == s.(active := if chosen.Some? then chosen else s.active, events := t.events)
                 && t.events == s.events + [if chosen.Some? then Event(Failover, None, Some(s.regions[chosen.value].name))
                                            else Event(Unavailable, None, None)]
  {
    FailoverTells(s.(active := None), skip);
  }

  lemma EventTold(first: seq<Region>, logged: seq<Event>, s: Router, t: Router)
    requires Told(first, logged, s) && t.regions == s.regions && t.calls == s.calls
    requires t.events == s.events || exists e :: t.events == s.events + [e] && !e.kind.Degrade?
    ensures Told(first, logged, t)
  {
    hide Losses, SuccessesSince, HealthTracks;
    if e :| t.events == s.events + [e] && !e.kind.Degrade? {
      DegradationsMore(s.events, e);
    }
  }

  lemma {:induction false} AttemptTold(first: seq<Region>, logged: seq<Event>, s: Router, sub: Submission, tried: set<string>, w: World)
    requires Told(first, logged, s)
    ensures Told(first, logged, Attempt(s, sub, tried, w).0)
    decreases Names(s.regions) - tried
  {
    hide Told, NoteFailure, DoFailover, EnsureActive;
    var (s1, region) := EnsureActive(s, tried);
    EnsuringTells(s, tried);
    EventTold(first, logged, s, s1);
    if region.None? {
      LedgerTold(first, logged, s1, s1.(ledger := s1.ledger - {KeyOf(sub)}));
    } else {
      var i := region.value;
      var (s2, o) := Transport(s1, i, sub, false, w);
      var c := Call(KeyOf(sub), i, o, false);
      assert s.regions[i] in s.regions && s.regions[i].name in Names(s.regions);
      if o.Delivered? {
        DeliveryTold(first, logged, s1, c, Attempt(s, sub, tried, w).0);
      } else {
        FailureTold(first, logged, s1, i, c, w);
        var s3 := NoteFailure(s2, i, w);
        var s4 := DoFailover(s3, {}).0;
        FailoverTells(s3, {});
        EventTold(first, logged, s3, s4);
        AfterFailure(s2, i, w);
        SameNames(s.regions, s4.regions);
        if o.Refused? {
          AttemptTold(first, logged, s4, sub, tried + {s.regions[i].name}, w);
        } else {
          LedgerTold(first, logged, s4, s4.(quarantined := s4.quarantined + {KeyOf(sub)}));
        }
      }
    }
  }

  lemma LedgerTold(first: seq<Region>, logged: seq<Event>, s: Router, t: Router)
    requires Told(first, logged, s) && t.regions == s.regions && t.calls == s.calls && t.events == s.events
    ensures Told(first, logged, t)
  {}

  lemma DeliveryTold(first: seq<Region>, logged: seq<Event>, s: Router, c: Call, t: Router)
    requires Told(first, logged, s) && c.region < |s.regions| && c.outcome.Delivered? && !c.probe
    requires var r := s.regions[c.region]; t.regions == s.regions[c.region := r.(submissions := r.submissions + 1)]
    requires t.calls == s.calls + [c] && t.events == s.events
    ensures Told(first, logged, t)
  {
    hide FailuresSince, Losses, SuccessesSince, Degradations, HealthTracks;
    CallsMore(s.calls, c, first);
    GoodCall(s.regions, c.region, s.calls, c);
  }

  lemma ProbeTold(first: seq<Region>, logged: seq<Event>, s: Router, i: nat, w: World)
    requires Told(first, logged, s) && i < |s.regions|
    ensures Told(first, logged, Probe(s, i, w).0)
  {
    hide FailuresSince, Losses, SuccessesSince, Degradations, HealthTracks, NoteFailure;
    var s0 := s.(readings := s.readings + 1);
    var c := Call(KeyOf(PROBE), i, w.outcome(|s.calls|, i), true);
    LedgerTold(first, logged, s, s0);
    CallsMore(s.calls, c, first);
    if c.outcome.Delivered? {
      GoodCall(s.regions, i, s.calls, c);
    } else {
      FailureTold(first, logged, s0, i, c, w);
    }
  }

  lemma {:induction false} RunTold(first: seq<Region>, logged: seq<Event>, s: Router, ops: seq<Op>, w: World)
    requires Told(first, logged, s)
    ensures Told(first, logged, Run(s, ops, w))
    decreases |ops|
  {
    if ops != [] {
      hide Told, Probe, Attempt;
      RunTold(first, logged, s, ops[..|ops| - 1], w);
      var t := Run(s, ops[..|ops| - 1], w);
      match ops[|ops| - 1]
      case Submitted(sub) =>
        var key := KeyOf(sub);
        LedgerTold(first, logged, t, t.(suppressed := t.suppressed + 1));
        LedgerTold(first, logged, t, t.(ledger := t.ledger[key := PENDING]));
        if key !in t.quarantined && key !in t.ledger {
          AttemptTold(first, logged, t.(ledger := t.ledger[key := PENDING]), sub, {}, w);
        }
      case Probed(i) =>
        if i < |t.regions| {
          ProbeTold(first, logged, t, i, w);
        }
    }
  }

  /** In every run the log has one degradation for each time the failures of a region since its last good
      probe reached its limit, in that order and of that region, and no other; and a region's success
      counter is its good probes since its last failure. */
  lemma OutagesAreLogged(s: Router, ops: seq<Op>, w: World)
    requires Initial(s)
    ensures var t := Run(s, ops, w);
            && Degradations(t.events) == Degradations(s.events) + Losses(t.calls, s.regions)
            && |t.regions| == |s.regions|
            && forall i | 0 <= i < |t.regions| :: t.regions[i].successes == SuccessesSince(t.calls, i)
  {
    hide Run, FailuresSince;
    InitialTracks(s);
    assert Losses([], s.regions) == [];
    forall i | 0 <= i < |s.regions| ensures s.regions[i].successes == 0 {
      assert s.regions[i] in s.regions;
    }
    RunTold(s.regions, Degradations(s.events), s, ops, w);
  }
}
