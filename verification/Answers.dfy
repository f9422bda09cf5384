/** What the router answers, in terms of the calls it made. */
module Answers {
  import opened Options
  import opened Routing

  /** Some submission under the key came to `o`. */
  ghost predicate Sent(calls: seq<Call>, key: Key, o: Outcome) {
    exists i :: 0 <= i < |calls| && calls[i].key == key && !calls[i].probe && calls[i].outcome == o
  }

  /** Quarantined are the keys of ambiguous submissions, settled those of delivered ones. */
  ghost predicate Recorded(s: Router) {
    forall key :: RecordedFor(s, key)
  }

  ghost predicate RecordedFor(s: Router, key: Key) {
    && (key in s.quarantined <==> Sent(s.calls, key, Ambiguous))
    && (key in s.ledger && key !in s.quarantined <==> Sent(s.calls, key, Delivered))
  }

  /** One submission as its own calls tell it: some refusals, and then what the answer says. */
  ghost predicate Settled(s: Router, t: Router, key: Key, r: Result) {
    && s.calls <= t.calls
    && (forall j | |s.calls| <= j < |t.calls| :: t.calls[j].key == key && !t.calls[j].probe)
    && (forall j | |s.calls| <= j < |t.calls| - 1 :: t.calls[j].outcome.Refused?)
    && Answer(t.calls[|s.calls|..], r)
    && t.suppressed == s.suppressed
  }

  ghost predicate Answer(own: seq<Call>, r: Result) {
    && (forall i :: r == Accepted(i) <==> own != [] && own[|own| - 1].region == i && own[|own| - 1].outcome.Delivered?)
    && (forall i :: r == Unknown(i) <==> own != [] && own[|own| - 1].region == i && own[|own| - 1].outcome.Ambiguous?)
    && (r == NoRegion <==> own == [] || own[|own| - 1].outcome.Refused?)
  }

  /** What it leaves in the ledger and the quarantine. */
  ghost predicate Filed(s: Router, t: Router, key: Key, r: Result) {
    && (forall k | k != key :: (k in t.ledger <==> k in s.ledger) && (k in t.quarantined <==> k in s.quarantined))
    && (forall k | k != key && k in s.ledger :: t.ledger[k] == s.ledger[k])
    && (key in t.ledger <==> !r.NoRegion?)
    && (key in t.quarantined <==> r.Unknown?)
    && (r.Accepted? ==> r.region < |t.regions| && key in t.ledger && t.ledger[key] == t.regions[r.region].name)
    && (r.Unknown? ==> key in t.ledger && t.ledger[key] == PENDING)
  }

  lemma {:induction false} AttemptSettles(s: Router, sub: Submission, tried: set<string>, w: World)
    requires KeyOf(sub) in s.ledger && s.ledger[KeyOf(sub)] == PENDING && KeyOf(sub) !in s.quarantined
    ensures var (t, r) := Attempt(s, sub, tried, w);
            Settled(s, t, KeyOf(sub), r) && Filed(s, t, KeyOf(sub), r) && !r.Duplicate?
    decreases Names(s.regions) - tried
  {
    hide Answer, NoteFailure, DoFailover, EnsureActive, Settled, Filed;
    var key := KeyOf(sub);
    var (s1, region) := EnsureActive(s, tried);
    if region.None? {
      NothingSettles(s, s1, key);
    } else {
      var i := region.value;
      var (s2, o) := Transport(s1, i, sub, false, w);
      var c := Call(key, i, o, false);
      assert s.regions[i] in s.regions && s.regions[i].name in Names(s.regions);
      AfterFailure(s2, i, w);
      FailureSuppressesNothing(s2, i, w);
      var s4 := DoFailover(NoteFailure(s2, i, w), {}).0;
      if o.Refused? {
        SameNames(s.regions, s4.regions);
        var tried2 := tried + {s.regions[i].name};
        AttemptSettles(s4, sub, tried2, w);
        var (t, r) := Attempt(s4, sub, tried2, w);
        SettlesOnward(s, s4, t, c, r);
      } else {
        var (t, r) := Attempt(s, sub, tried, w);
        LastSettles(s, if o.Ambiguous? then s4 else s2, t, c, r);
      }
    }
  }

  /** No call, and the intent withdrawn. */
  lemma NothingSettles(s: Router, s1: Router, key: Key)
    requires s1.ledger == s.ledger && s1.quarantined == s.quarantined && s1.calls == s.calls && s1.suppressed == s.suppressed
    requires key !in s.quarantined
    ensures var t := s1.(ledger := s1.ledger - {key}); Settled(s, t, key, NoRegion) && Filed(s, t, key, NoRegion)
  {
    hide Answer;
    NoCallAnswers();
    assert s.calls[|s.calls|..] == [];
  }

  /** The call that ends it. */
  lemma LastSettles(s: Router, s2: Router, t: Router, c: Call, r: Result)
    requires c.key in s.ledger && s.ledger[c.key] == PENDING && c.key !in s.quarantined && !c.probe
    requires s2.ledger == s.ledger && s2.quarantined == s.quarantined && s2.calls == s.calls + [c] && s2.suppressed == s.suppressed
    requires match c.outcome
             case Refused => false
             case Ambiguous => t == s2.(quarantined := s2.quarantined + {c.key}) && r == Unknown(c.region)
             case Delivered =>
               && r == Accepted(c.region) && c.region < |s2.regions|
               && var reg := s2.regions[c.region];
                  t == s2.(regions := s2.regions[c.region := reg.(submissions := reg.submissions + 1)], ledger := s2.ledger[c.key := reg.name])
    ensures Settled(s, t, c.key, r) && Filed(s, t, c.key, r)
  {
    hide Answer;
    assert t.calls[|s.calls|..] == [c];
    LastAnswers([c], c.outcome);
  }

  /** A refused call in front of what settles. */
  lemma SettlesOnward(s: Router, s4: Router, t: Router, c: Call, r: Result)
    requires s4.ledger == s.ledger && s4.quarantined == s.quarantined && s4.calls == s.calls + [c] && s4.suppressed == s.suppressed
    requires c.outcome.Refused? && !c.probe
    requires Settled(s4, t, c.key, r) && Filed(s4, t, c.key, r)
    ensures Settled(s, t, c.key, r) && Filed(s, t, c.key, r)
  {
    hide Answer;
    assert t.calls[|s.calls|] == c;
    assert t.calls[|s.calls|..] == [c] + t.calls[|s4.calls|..];
    RefusalAnswers(c, t.calls[|s4.calls|..], r);
  }

  lemma NoCallAnswers()
    ensures Answer([], NoRegion)
  {}

  lemma LastAnswers(own: seq<Call>, o: Outcome)
    requires |own| == 1 && own[0].outcome == o
    ensures o.Delivered? ==> Answer(own, Accepted(own[0].region))
    ensures o.Ambiguous? ==> Answer(own, Unknown(own[0].region))
  {}

  lemma RefusalAnswers(c: Call, rest: seq<Call>, r: Result)
    requires c.outcome.Refused? && Answer(rest, r)
    ensures Answer([c] + rest, r)
  {
    if rest != [] {
      assert ([c] + rest)[|rest|] == rest[|rest| - 1];
    }
  }

  lemma FailureSuppressesNothing(s: Router, i: nat, w: World)
    requires i < |s.regions|
    ensures DoFailover(NoteFailure(s, i, w), {}).0.suppressed == s.suppressed
  {}

  /** What one submission answers. */
  ghost predicate Tells(s: Router, sub: Submission, t: Router, r: Result) {
    var key := KeyOf(sub);
    && (r == Duplicate(true) <==> Sent(s.calls, key, Ambiguous))
    && (r == Duplicate(false) <==> Sent(s.calls, key, Delivered))
    && (r.Duplicate? ==> t == s.(suppressed := s.suppressed + 1))
    && (!r.Duplicate? ==> Settled(s, t, key, r) && Filed(s, t, key, r))
  }

  lemma SubmitTells(s: Router, sub: Submission, w: World)
    requires Recorded(s)
    ensures Tells(s, sub, Submit(s, sub, w).0, Submit(s, sub, w).1)
  {
    hide Attempt, Sent, Answer;
    var key := KeyOf(sub);
    assert RecordedFor(s, key);
    if key !in s.quarantined && key !in s.ledger {
      AttemptSettles(s.(ledger := s.ledger[key := PENDING]), sub, {}, w);
    }
  }

  // -- the record -----------------------------------------------------------

  lemma SentGrows(calls: seq<Call>, more: seq<Call>, key: Key, o: Outcome)
    requires calls <= more
    ensures Sent(more, key, o) <==> (Sent(calls, key, o) || SentAfter(calls, more, key, o))
  {
    if i :| 0 <= i < |calls| && calls[i].key == key && !calls[i].probe && calls[i].outcome == o {
      assert more[i].key == key && !more[i].probe && more[i].outcome == o;
    }
  }

  ghost predicate SentAfter(calls: seq<Call>, more: seq<Call>, key: Key, o: Outcome) {
    exists j :: |calls| <= j < |more| && more[j].key == key && !more[j].probe && more[j].outcome == o
  }

  lemma SubmitRecords(s: Router, sub: Submission, w: World)
    requires Recorded(s)
    ensures Recorded(Submit(s, sub, w).0)
  {
    hide Submit;
    SubmitTells(s, sub, w);
    var (t, r) := Submit(s, sub, w);
    var key := KeyOf(sub);
    forall k ensures RecordedFor(t, k) {
      assert RecordedFor(s, k);
      if !r.Duplicate? {
        SentGrows(s.calls, t.calls, k, Ambiguous);
        SentGrows(s.calls, t.calls, k, Delivered);
        var own := t.calls[|s.calls|..];
        if k == key && own != [] {
          assert own[|own| - 1] == t.calls[|t.calls| - 1];
        }
      }
    }
  }

  lemma ProbeRecords(s: Router, i: nat, w: World)
    requires Recorded(s) && i < |s.regions|
    ensures Recorded(Probe(s, i, w).0)
  {
    hide Recorded, Sent;
    var t := Probe(s, i, w).0;
    ProbeCalls(s, i, w);
    forall k ensures RecordedFor(t, k) {
      assert RecordedFor(s, k) by { RecordedEach(s, k); }
      SentGrows(s.calls, t.calls, k, Ambiguous);
      SentGrows(s.calls, t.calls, k, Delivered);
    }
    RecordedAll(t);
  }

  lemma RecordedEach(s: Router, key: Key)
    requires Recorded(s)
    ensures RecordedFor(s, key)
  {}

  lemma RecordedAll(s: Router)
    requires forall key :: RecordedFor(s, key)
    ensures Recorded(s)
  {}

  /** A probe answers whether its call got through, makes that call unless the region cools down, and files nothing. */
  lemma ProbeCalls(s: Router, i: nat, w: World)
    requires i < |s.regions|
    ensures var (t, ok) := Probe(s, i, w);
            && t.ledger == s.ledger && t.quarantined == s.quarantined && t.suppressed == s.suppressed
            && (if s.regions[i].cooldownUntil > w.clock(s.readings) then t.calls == s.calls && !ok
                else |t.calls| == |s.calls| + 1 && t.calls[..|s.calls|] == s.calls
                     && t.calls[|s.calls|].region == i && t.calls[|s.calls|].probe && ok == t.calls[|s.calls|].outcome.Delivered?)
  {}

  lemma {:induction false} RunRecords(s: Router, ops: seq<Op>, w: World)
    requires Recorded(s)
    ensures Recorded(Run(s, ops, w))
    decreases |ops|
  {
    if ops != [] {
      hide Recorded, Submit, Probe;
      RunRecords(s, ops[..|ops| - 1], w);
      var t := Run(s, ops[..|ops| - 1], w);
      match ops[|ops| - 1]
      case Submitted(sub) => SubmitRecords(t, sub, w);
      case Probed(i) =>
        if i < |t.regions| {
          ProbeRecords(t, i, w);
        }
    }
  }

  lemma InitialRecords(s: Router)
    requires Initial(s)
    ensures Recorded(s)
  {}

  /** In every run, a submission is answered as a quarantined duplicate if and only if one under its key was
      ambiguous before, as a settled one if and only if one was delivered before, both without a call; and
      otherwise by what its own last call came to. */
  lemma AnswersTell(s: Router, ops: seq<Op>, sub: Submission, w: World)
    requires Initial(s)
    ensures var t := Run(s, ops, w); Tells(t, sub, Submit(t, sub, w).0, Submit(t, sub, w).1)
  {
    hide Run, Recorded, Tells;
    InitialRecords(s);
    RunRecords(s, ops, w);
    SubmitTells(Run(s, ops, w), sub, w);
  }

  /** The submissions of a run under whose key one was delivered or ambiguous before. */
  ghost function Repeats(s: Router, ops: seq<Op>, w: World): set<nat> {
    set i: nat | i < |ops| && Repeated(s, ops, w, i)
  }

  ghost predicate Repeated(s: Router, ops: seq<Op>, w: World, i: nat)
    requires i < |ops|
  {
    && ops[i].Submitted?
    && (Sent(Run(s, ops[..i], w).calls, KeyOf(ops[i].sub), Delivered) || Sent(Run(s, ops[..i], w).calls, KeyOf(ops[i].sub), Ambiguous))
  }

  /** `duplicates_suppressed` counts exactly those. */
  lemma {:induction false} SuppressedCounts(s: Router, ops: seq<Op>, w: World)
    requires Initial(s)
    ensures Run(s, ops, w).suppressed == s.suppressed + |Repeats(s, ops, w)|
    decreases |ops|
  {
    if ops == [] {
      assert Repeats(s, ops, w) == {};
    } else {
      hide Submit, Probe, Sent, Tells, Repeated, Run;
      var n := |ops| - 1;
      SuppressedCounts(s, ops[..n], w);
      RepeatsGrow(s, ops, w);
      var t := Run(s, ops[..n], w);
      assert ops == ops[..n] + [ops[n]];
      RunMore(s, ops[..n], ops[n], w);
      LastIsRepeat(s, ops, w);
      match ops[n]
      case Submitted(sub) =>
        AnswersTell(s, ops[..n], sub, w);
        SuppressedOnce(t, sub, Submit(t, sub, w).0, Submit(t, sub, w).1);
      case Probed(i) =>
        if i < |t.regions| {
          ProbeCalls(t, i, w);
        }
    }
  }

  lemma RepeatedBefore(s: Router, ops: seq<Op>, w: World, i: nat)
    requires i < |ops| - 1
    ensures Repeated(s, ops[..|ops| - 1], w, i) <==> Repeated(s, ops, w, i)
  {
    hide Run, Sent;
    assert ops[..|ops| - 1][..i] == ops[..i];
  }

  lemma RepeatsGrow(s: Router, ops: seq<Op>, w: World)
    requires ops != []
    ensures var n := |ops| - 1;
            |Repeats(s, ops, w)| == |Repeats(s, ops[..n], w)| + if Repeated(s, ops, w, n) then 1 else 0
  {
    var n := |ops| - 1;
    forall i: nat | i < n ensures Repeated(s, ops[..n], w, i) <==> Repeated(s, ops, w, i) {
      RepeatedBefore(s, ops, w, i);
    }
    hide Repeated;
    assert Repeats(s, ops, w) == Repeats(s, ops[..n], w) + if Repeated(s, ops, w, n) then {n} else {};
  }

  lemma LastIsRepeat(s: Router, ops: seq<Op>, w: World)
    requires ops != []
    ensures var n := |ops| - 1;
            var calls := Run(s, ops[..n], w).calls;
            Repeated(s, ops, w, n) <==> ops[n].Submitted? && (Sent(calls, KeyOf(ops[n].sub), Delivered) || Sent(calls, KeyOf(ops[n].sub), Ambiguous))
  {}

  lemma SuppressedOnce(s: Router, sub: Submission, t: Router, r: Result)
    requires Tells(s, sub, t, r)
    ensures t.suppressed == s.suppressed + if Sent(s.calls, KeyOf(sub), Delivered) || Sent(s.calls, KeyOf(sub), Ambiguous) then 1 else 0
  {
    hide Sent, Answer;
    assert r.Duplicate? ==> r == Duplicate(true) || r == Duplicate(false);
  }
}
