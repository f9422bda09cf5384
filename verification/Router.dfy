/** The router as the code runs it: region objects whose health and counters are
    updated in place, a shared ledger, and the retry loop of `submit`. */
module Routers {
  import opened Options
  import opened R = Routing

  class Node {
    const name: string
    const failureThreshold: int
    const cooldownSecs: real
    var consecutiveFailures: int
    var consecutiveSuccesses: int
    var inCooldownUntil: real
    var health: Health
    var submissions: nat

    constructor (name: string, failureThreshold: int, cooldownSecs: real)
      ensures View() == Region(name, failureThreshold, cooldownSecs, 0, 0, 0.0, Healthy, 0)
    {
      this.name, this.failureThreshold, this.cooldownSecs := name, failureThreshold, cooldownSecs;
      consecutiveFailures, consecutiveSuccesses, inCooldownUntil := 0, 0, 0.0;
      health, submissions := Healthy, 0;
    }

    function View(): Region
      reads this
    {
      Region(name, failureThreshold, cooldownSecs, consecutiveFailures, consecutiveSuccesses, inCooldownUntil, health, submissions)
    }

    predicate Available()
      reads this
    {
      !health.Unhealthy?
    }
  }

  ghost function Views(nodes: seq<Node>): seq<Region>
    reads nodes
  {
    seq(|nodes|, i requires 0 <= i < |nodes| reads nodes => nodes[i].View())
  }

  ghost predicate Distinct(nodes: seq<Node>) {
    forall i, j | 0 <= i < j < |nodes| :: nodes[i] != nodes[j]
  }

  class RegionRouter {
    const regions: seq<Node>
    var ledger: map<Key, string>
    var quarantined: set<Key>
    var duplicatesSuppressed: nat
    var active: Node?
    var events: seq<Event>
    /** Every transport call made so far, and how often the clock was read. */
    var calls: seq<Call>
    var readings: nat

    ghost predicate Holds()
      reads this
    {
      regions != [] && Distinct(regions) && (active != null ==> active in regions)
    }

    ghost function Position(node: Node?): (p: Option<nat>)
      ensures p.Some? ==> p.value < |regions| && node == regions[p.value]
      ensures p.None? ==> node !in regions
    {
      if node != null && node in regions then
        var i :| 0 <= i < |regions| && regions[i] == node;
        Some(i)
      else None
    }

    ghost function State(): Router
      reads this, regions
    {
      Router(Views(regions), ledger, quarantined, duplicatesSuppressed, Position(active), events, calls, readings)
    }

    constructor (regions: seq<Node>)
      requires regions != [] && Distinct(regions)
      ensures Holds() && this.regions == regions && active == regions[0]
      ensures ledger == map[] && quarantined == {} && calls == [] && events == [] && duplicatesSuppressed == 0 && readings == 0
    {
      this.regions := regions;
      ledger, quarantined, duplicatesSuppressed := map[], {}, 0;
      active, events, calls, readings := regions[0], [], [], 0;
    }

    method Record(kind: Kind, source: Node?, target: Node?)
      modifies this`events
      ensures events == old(events) + [Event(kind, NameOf(source), NameOf(target))]
    {
      events := events + [Event(kind, NameOf(source), NameOf(target))];
    }

    method NoteFailure(i: nat, w: World)
      requires Holds() && i < |regions|
      modifies this`events, this`readings, regions[i]
      ensures Holds() && State() == R.NoteFailure(old(State()), i, w)
    {
      var region := regions[i];
      region.consecutiveFailures := region.consecutiveFailures + 1;
      region.consecutiveSuccesses := 0;
      if region.consecutiveFailures >= region.failureThreshold {
        if region.health != Unhealthy {
          Record(Degrade, region, null);
        }
        region.health := Unhealthy;
        region.inCooldownUntil := w.clock(readings) + region.cooldownSecs;
        readings := readings + 1;
      }
      assert Views(regions) == R.NoteFailure(old(State()), i, w).regions;
    }

    /** The first candidate of the comprehension in `failover`. */
    method FirstUsable(skip: set<string>) returns (i: nat)
      requires Holds()
      ensures i <= |regions|
      ensures R.FirstUsable(Views(regions), 0, Position(active), skip) == if i < |regions| then Some(i) else None
    {
      i := 0;
      while i < |regions| && !(regions[i].Available() && regions[i] != active && regions[i].name !in skip)
        invariant i <= |regions|
        invariant R.FirstUsable(Views(regions), 0, Position(active), skip) == R.FirstUsable(Views(regions), i, Position(active), skip)
      {
        i := i + 1;
      }
    }

    method DoFailover(skip: set<string>) returns (chosen: Node?)
      requires Holds()
      modifies this`active, this`events
      ensures Holds() && (State(), Position(chosen)) == R.DoFailover(old(State()), skip)
      ensures chosen == active
    {
      var i := FirstUsable(skip);
      if i == |regions| {
        Record(Unavailable, active, null);
        active := null;
        return null;
      }
      Record(Failover, active, regions[i]);
      active := regions[i];
      chosen := active;
    }

    method EnsureActive(skip: set<string>) returns (chosen: Node?)
      requires Holds()
      modifies this`active, this`events
      ensures Holds() && (State(), Position(chosen)) == R.EnsureActive(old(State()), skip)
      ensures chosen != null ==> chosen in regions
    {
      if active != null && active.Available() && active.name !in skip {
        return active;
      }
      var current := active;
      active := null;
      chosen := DoFailover(skip);
      if chosen == null {
        active := current;
      }
    }

    /** One pass of the retry loop, once a region is chosen: the call and what follows from its outcome. */
    method Send(i: nat, sub: Submission, w: World) returns (outcome: Outcome)
      requires Holds() && i < |regions|
      modifies this, regions
      ensures Holds() && (State(), outcome) == Sent(old(State()), i, sub, w)
    {
      hide R.NoteFailure, R.DoFailover;
      var key := R.KeyOf(sub);
      outcome := w.outcome(|calls|, i);
      calls := calls + [Call(key, i, outcome, false)];
      ghost var called := State();
      match outcome {
        case Refused =>
          NoteFailure(i, w);
          var _ := DoFailover({});
        case Ambiguous =>
          NoteFailure(i, w);
          var _ := DoFailover({});
          quarantined := quarantined + {key};
        case Delivered =>
          regions[i].submissions := regions[i].submissions + 1;
          ledger := ledger[key := regions[i].name];
          var r := called.regions[i];
          assert Views(regions) == called.regions[i := r.(submissions := r.submissions + 1)];
      }
    }

    method Submit(sub: Submission, w: World) returns (r: Result)
      requires Holds()
      modifies this, regions
      ensures Holds() && (State(), r) == R.Submit(old(State()), sub, w)
    {
      hide R.EnsureActive, R.Attempt, Sent;
      var key := R.KeyOf(sub);
      if key in quarantined {
        duplicatesSuppressed := duplicatesSuppressed + 1;
        return Duplicate(true);
      }
      if key in ledger {
        duplicatesSuppressed := duplicatesSuppressed + 1;
        return Duplicate(false);
      }
      ledger := ledger[key := R.PENDING];
      var tried: set<string> := {};
      ghost var whole := R.Attempt(State(), sub, {}, w);
      while true
        invariant Holds()
        invariant whole == R.Attempt(State(), sub, tried, w)
        decreases R.Names(Views(regions)) - tried
      {
        ghost var before := State();
        AttemptByParts(before, sub, tried, w);
        var region := EnsureActive(tried);
        if region == null {
          ledger := ledger - {key};
          return NoRegion;
        }
        var i := IndexOf(region);
        assert before.regions[i] in before.regions;
        tried := tried + {region.name};
        SentKeepsNames(State(), i, sub, w);
        var outcome := Send(i, sub, w);
        if outcome.Ambiguous? { return Unknown(i); }
        if outcome.Delivered? { return Accepted(i); }
      }
    }

    method IndexOf(node: Node) returns (i: nat)
      requires Holds() && node in regions
      ensures i < |regions| && regions[i] == node && Position(node) == Some(i)
    {
      i := 0;
      while regions[i] != node
        invariant i < |regions| && node in regions[i..]
        decreases |regions| - i
      {
        i := i + 1;
      }
    }

    method Probe(i: nat, w: World) returns (ok: bool)
      requires Holds() && i < |regions|
      modifies this, regions
      ensures Holds() && (State(), ok) == R.Probe(old(State()), i, w)
    {
      hide R.NoteFailure;
      var node := regions[i];
      var now := w.clock(readings);
      readings := readings + 1;
      assert Views(regions) == old(Views(regions));
      if node.inCooldownUntil > now { return false; }
      var outcome := w.outcome(|calls|, i);
      calls := calls + [Call(R.KeyOf(R.PROBE), i, outcome, true)];
      ghost var called := State();
      ok := outcome.Delivered?;
      if ok {
        node.consecutiveFailures := 0;
        node.consecutiveSuccesses := node.consecutiveSuccesses + 1;
        node.health := Healthy;
        var r := called.regions[i];
        assert Views(regions) == called.regions[i := r.(failures := 0, successes := r.successes + 1, health := Healthy)];
      } else {
        NoteFailure(i, w);
      }
    }
  }

  /** What `Send` does to the router. */
  ghost function Sent(s: Router, i: nat, sub: Submission, w: World): (Router, Outcome)
    requires i < |s.regions|
  {
    var (s1, o) := R.Transport(s, i, sub, false, w);
    if o.Delivered? then
      var r := s1.regions[i];
      (s1.(regions := s1.regions[i := r.(submissions := r.submissions + 1)], ledger := s1.ledger[R.KeyOf(sub) := r.name]), o)
    else
      var s2 := R.DoFailover(R.NoteFailure(s1, i, w), {}).0;
      (if o.Ambiguous? then s2.(quarantined := s2.quarantined + {R.KeyOf(sub)}) else s2, o)
  }

  lemma SentKeepsNames(s: Router, i: nat, sub: Submission, w: World)
    requires i < |s.regions|
    ensures R.Names(Sent(s, i, sub, w).0.regions) == R.Names(s.regions)
  {
    R.SameNames(s.regions, Sent(s, i, sub, w).0.regions);
  }

  lemma AttemptByParts(s: Router, sub: Submission, tried: set<string>, w: World)
    ensures var (s1, region) := R.EnsureActive(s, tried);
            R.Attempt(s, sub, tried, w) ==
            if region.None? then (s1.(ledger := s1.ledger - {R.KeyOf(sub)}), NoRegion)
            else var (t, o) := Sent(s1, region.value, sub, w);
                 match o
                 case Refused => R.Attempt(t, sub, tried + {s.regions[region.value].name}, w)
                 case Ambiguous => (t, Unknown(region.value))
                 case Delivered => (t, Accepted(region.value))
  {
    hide R.NoteFailure, R.DoFailover;
  }

  function NameOf(node: Node?): Option<string> {
    if node == null then None else Some(node.name)
  }
}
