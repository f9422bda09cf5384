/** Scoring rounds as a stream closes them, against scoring the whole batch at the end. */
module Streaming {
  import opened Sorting
  import opened Strings
  import opened Sums
  import opened Detection

  datatype Key = Key(asset: string, ledger: int)

  function KeyOf(event: Submission): Key { Key(event.asset, event.ledger) }

  // -- batch ----------------------------------------------------------------

  /** One round: the events of a key, in arrival order. */
  function Group(events: seq<Submission>, key: Key): seq<Submission> {
    if events == [] then [] else
    var n := |events| - 1;
    Group(events[..n], key) + (if KeyOf(events[n]) == key then [events[n]] else [])
  }

  /** The rounds in order of first appearance, the order of a dictionary's keys. */
  function KeyOrder(events: seq<Submission>): seq<Key> {
    if events == [] then [] else
    var n := |events| - 1;
    var keys := KeyOrder(events[..n]);
    if KeyOf(events[n]) in keys then keys else keys + [KeyOf(events[n])]
  }

  lemma {:induction false} KeysAreDistinct(events: seq<Submission>)
    ensures Distinct(KeyOrder(events))
  {
    if events != [] {
      KeysAreDistinct(events[..|events| - 1]);
    }
  }

  /** A key is listed exactly when some event carries it. */
  lemma {:induction false} KeysListed(events: seq<Submission>, i: nat)
    requires i < |events|
    ensures KeyOf(events[i]) in KeyOrder(events)
  {
    if i < |events| - 1 {
      KeysListed(events[..|events| - 1], i);
    }
  }

  lemma {:induction false} KeysCarried(events: seq<Submission>, k: Key) returns (i: nat)
    requires k in KeyOrder(events)
    ensures i < |events| && KeyOf(events[i]) == k
  {
    var n := |events| - 1;
    if k in KeyOrder(events[..n]) {
      i := KeysCarried(events[..n], k);
    } else {
      i := n;
    }
  }

  function RoundsOf(keys: seq<Key>, events: seq<Submission>, config: Config): seq<Alert> {
    if keys == [] then [] else
    var n := |keys| - 1;
    RoundsOf(keys[..n], events, config) + ScoreRound(keys[n].asset, keys[n].ledger, Group(events, keys[n]), config)
  }

  predicate AlertLe(a: Alert, b: Alert) {
    || a.ledger < b.ledger
    || (a.ledger == b.ledger && a.asset != b.asset && StringLe(a.asset, b.asset))
    || (a.ledger == b.ledger && a.asset == b.asset && StringLe(a.source, b.source))
  }

  function Detect(events: seq<Submission>, config: Config): seq<Alert> {
    Sort(RoundsOf(KeyOrder(events), events, config), AlertLe)
  }

  lemma AlertLeIsTotalPreorder()
    ensures TotalPreorder(AlertLe)
  {
    forall a, b ensures AlertLe(a, b) || AlertLe(b, a) {
      Total(a.asset, b.asset);
      Total(a.source, b.source);
    }
    forall a, b, c | AlertLe(a, b) && AlertLe(b, c) ensures AlertLe(a, c) {
      AlertLeTransitive(a, b, c);
    }
  }

  lemma AlertLeTransitive(a: Alert, b: Alert, c: Alert)
    requires AlertLe(a, b) && AlertLe(b, c)
    ensures AlertLe(a, c)
  {
    if a.ledger == c.ledger {
      if a.asset == c.asset && a.asset != b.asset {
        Antisymmetry(a.asset, b.asset);
      } else if a.asset != c.asset {
        if StringLe(a.asset, b.asset) && StringLe(b.asset, c.asset) { Transitive(a.asset, b.asset, c.asset); }
      } else {
        Transitive(a.source, b.source, c.source);
      }
    }
  }

  lemma DetectIsOrdered(events: seq<Submission>, config: Config)
    ensures Ascending(Detect(events, config), AlertLe)
  {
    AlertLeIsTotalPreorder();
    SortIsAscending(RoundsOf(KeyOrder(events), events, config), AlertLe);
  }

  /** Batch detection: group into a dictionary, score round by round, sort. */
  method DetectAnomalies(events: seq<Submission>, config: Config) returns (alerts: seq<Alert>)
    ensures alerts == Detect(events, config)
  {
    hide ScoreRound;
    var rounds: map<Key, seq<Submission>>, keys: seq<Key> := map[], [];
    for i := 0 to |events|
      invariant keys == KeyOrder(events[..i])
      invariant forall k :: k in rounds <==> k in keys
      invariant forall k | k in rounds :: rounds[k] == Group(events[..i], k)
    {
      assert events[..i + 1][..i] == events[..i];
      var key := KeyOf(events[i]);
      if key !in rounds {
        GroupOfStranger(events[..i], key);
        rounds, keys := rounds[key := []], keys + [key];
      }
      rounds := rounds[key := rounds[key] + [events[i]]];
    }
    assert events[..|events|] == events;
    alerts := [];
    for i := 0 to |keys|
      invariant alerts == RoundsOf(keys[..i], events, config)
    {
      assert keys[..i + 1][..i] == keys[..i];
      assert keys[i] in keys;
      alerts := alerts + ScoreRound(keys[i].asset, keys[i].ledger, rounds[keys[i]], config);
    }
    assert keys[..|keys|] == keys;
    alerts := Sort(alerts, AlertLe);
  }

  lemma {:induction false} GroupOfStranger(events: seq<Submission>, key: Key)
    requires key !in KeyOrder(events)
    ensures Group(events, key) == []
  {
    if events != [] {
      GroupOfStranger(events[..|events| - 1], key);
    }
  }

  // -- stream ---------------------------------------------------------------

  datatype Round = Round(ledger: int, subs: seq<Submission>)

  /** `_buffer` is a dictionary: `order` is the insertion order of its keys. */
  datatype Stream = Stream(buffer: map<string, Round>, order: seq<string>, scored: nat, delivered: seq<Alert>)

  const EMPTY := Stream(map[], [], 0, [])

  function ScoreOf(asset: string, round: Round, config: Config): seq<Alert> {
    ScoreRound(asset, round.ledger, round.subs, config)
  }

  function Fed(s: Stream, event: Submission, config: Config): Stream {
    var a := event.asset;
    if a !in s.buffer then
      s.(buffer := s.buffer[a := Round(event.ledger, [event])], order := s.order + [a])
    else if s.buffer[a].ledger != event.ledger then
      s.(buffer := s.buffer[a := Round(event.ledger, [event])], scored := s.scored + 1,
         delivered := s.delivered + ScoreOf(a, s.buffer[a], config))
    else
      s.(buffer := s.buffer[a := Round(event.ledger, s.buffer[a].subs + [event])])
  }

  function FedAll(s: Stream, events: seq<Submission>, config: Config): Stream {
    if events == [] then s else Fed(FedAll(s, events[..|events| - 1], config), events[|events| - 1], config)
  }

  /** Scoring the rounds still open, in the buffer's order. */
  function OpenRounds(buffer: map<string, Round>, order: seq<string>, config: Config): seq<Alert>
    requires forall i | 0 <= i < |order| :: order[i] in buffer
  {
    if order == [] then [] else
    var n := |order| - 1;
    OpenRounds(buffer, order[..n], config) + ScoreOf(order[n], buffer[order[n]], config)
  }

  lemma OpenRoundsStart(buffer: map<string, Round>, config: Config)
    ensures OpenRounds(buffer, [], config) == []
  {}

  lemma OpenRoundsStep(buffer: map<string, Round>, order: seq<string>, i: nat, config: Config)
    requires i < |order| && forall j | 0 <= j < |order| :: order[j] in buffer
    ensures OpenRounds(buffer, order[..i + 1], config) == OpenRounds(buffer, order[..i], config) + ScoreOf(order[i], buffer[order[i]], config)
  {
    hide ScoreOf;
    assert order[..i + 1][..i] == order[..i];
  }

  /** The buffer once the listed assets have been popped. */
  ghost function Rest(buffer: map<string, Round>, popped: seq<string>): map<string, Round> {
    map a | a in buffer && a !in popped :: buffer[a]
  }

  lemma RestStep(buffer: map<string, Round>, order: seq<string>, i: nat)
    requires i < |order| && Distinct(order) && order[i] in buffer
    ensures Rest(buffer, order[..i + 1]) == Rest(buffer, order[..i]) - {order[i]}
    ensures order[i] in Rest(buffer, order[..i]) && Rest(buffer, order[..i])[order[i]] == buffer[order[i]]
  {
    assert order[..i + 1] == order[..i] + [order[i]];
  }

  lemma RestOfNone(buffer: map<string, Round>)
    ensures Rest(buffer, []) == buffer
  {}

  lemma RestOfAll(buffer: map<string, Round>, order: seq<string>)
    requires forall a | a in buffer :: a in order
    ensures Rest(buffer, order) == map[]
  {}

  ghost predicate WellFormed(s: Stream) {
    && Distinct(s.order)
    && forall a :: a in s.buffer <==> a in s.order
  }

  function Flushed(s: Stream, config: Config): Stream
    requires WellFormed(s)
  {
    Stream(map[], [], s.scored + |s.order|, s.delivered + OpenRounds(s.buffer, s.order, config))
  }

  lemma {:induction false} FedAllIsWellFormed(s: Stream, events: seq<Submission>, config: Config)
    requires WellFormed(s)
    ensures WellFormed(FedAll(s, events, config))
  {
    if events != [] {
      FedAllIsWellFormed(s, events[..|events| - 1], config);
    }
  }

  /** The detector object. Alert sinks are represented by everything delivered to them. */
  class StreamingDetector {
    const config: Config
    var buffer: map<string, Round>
    var order: seq<string>
    var roundsScored: nat
    var alertsEmitted: nat
    var delivered: seq<Alert>

    constructor (config: Config)
      ensures Valid() && State() == EMPTY && this.config == config
    {
      this.config := config;
      buffer, order, roundsScored, alertsEmitted, delivered := map[], [], 0, 0, [];
    }

    ghost function State(): Stream
      reads this
    {
      Stream(buffer, order, roundsScored, delivered)
    }

    ghost predicate Valid()
      reads this
    {
      WellFormed(State()) && alertsEmitted == |delivered|
    }

    method Flush(asset: string, round: Round) returns (alerts: seq<Alert>)
      requires alertsEmitted == |delivered|
      modifies `roundsScored, `alertsEmitted, `delivered
      ensures alerts == ScoreOf(asset, round, config)
      ensures roundsScored == old(roundsScored) + 1
      ensures delivered == old(delivered) + alerts && alertsEmitted == |delivered|
    {
      hide ScoreRound;
      alerts := ScoreRound(asset, round.ledger, round.subs, config);
      roundsScored := roundsScored + 1;
      for i := 0 to |alerts|
        invariant delivered == old(delivered) + alerts[..i] && alertsEmitted == |delivered|
        invariant roundsScored == old(roundsScored) + 1
      {
        alertsEmitted := alertsEmitted + 1;
        delivered := delivered + [alerts[i]];
      }
    }

    method Feed(event: Submission) returns (flushed: seq<Alert>)
      requires Valid()
      modifies this
      ensures Valid()
      ensures State() == Fed(old(State()), event, config)
      ensures delivered == old(delivered) + flushed
    {
      hide ScoreRound;
      flushed := [];
      var a := event.asset;
      var known := a in buffer;
      if known && buffer[a].ledger != event.ledger {
        flushed := Flush(a, buffer[a]);
        buffer := buffer[a := Round(event.ledger, [event])];
      } else if known {
        buffer := buffer[a := Round(event.ledger, buffer[a].subs + [event])];
      } else {
        buffer, order := buffer[a := Round(event.ledger, [event])], order + [a];
      }
    }

    /** Pops the oldest entry of the buffer and scores it. */
    method FlushFirst() returns (alerts: seq<Alert>)
      requires Valid() && order != []
      modifies this
      ensures Valid()
      ensures order == old(order[1..]) && buffer == old(buffer - {order[0]})
      ensures alerts == old(ScoreOf(order[0], buffer[order[0]], config))
      ensures roundsScored == old(roundsScored) + 1 && delivered == old(delivered) + alerts
    {
      hide ScoreRound, ScoreOf;
      var a := order[0];
      assert a in buffer;
      var round := buffer[a];
      buffer, order := buffer - {a}, order[1..];
      alerts := Flush(a, round);
    }

    method FlushAll() returns (alerts: seq<Alert>)
      requires Valid()
      modifies this
      ensures Valid()
      ensures State() == Flushed(old(State()), config)
      ensures delivered == old(delivered) + alerts
    {
      hide ScoreRound, ScoreOf, OpenRounds, Rest;
      alerts := [];
      OpenRoundsStart(buffer, config);
      RestOfNone(buffer);
      ghost var all, open := order, buffer;
      var n := |order|;
      for i := 0 to n
        invariant Valid() && order == all[i..] && buffer == Rest(open, all[..i])
        invariant alerts == OpenRounds(open, all[..i], config)
        invariant delivered == old(delivered) + alerts && roundsScored == old(roundsScored) + i
      {
        OpenRoundsStep(open, all, i, config);
        RestStep(open, all, i);
        var found := FlushFirst();
        alerts := alerts + found;
      }
      assert all[..n] == all;
      RestOfAll(open, all);
    }

    method Run(events: seq<Submission>) returns (alerts: seq<Alert>)
      requires Valid()
      modifies this
      ensures Valid() && WellFormed(FedAll(old(State()), events, config))
      ensures State() == Flushed(FedAll(old(State()), events, config), config)
      ensures delivered == old(delivered) + alerts
    {
      hide ScoreRound;
      alerts := [];
      for i := 0 to |events|
        invariant Valid()
        invariant State() == FedAll(old(State()), events[..i], config)
        invariant delivered == old(delivered) + alerts
      {
        assert events[..i + 1][..i] == events[..i];
        var flushed := Feed(events[i]);
        alerts := alerts + flushed;
      }
      assert events[..|events|] == events;
      var last := FlushAll();
      alerts := alerts + last;
    }
  }

  // -- alerts per round -----------------------------------------------------

  /** How often scoring a round reports `x`. */
  ghost function Reports(asset: string, ledger: int, subs: seq<Submission>, config: Config, x: Alert): nat {
    multiset(ScoreRound(asset, ledger, subs, config))[x]
  }

  ghost function InRound(events: seq<Submission>, config: Config, x: Alert): Key -> nat {
    (k: Key) => Reports(k.asset, k.ledger, Group(events, k), config, x)
  }

  ghost function InOpen(buffer: map<string, Round>, config: Config, x: Alert): string -> nat {
    (a: string) => if a in buffer then Reports(a, buffer[a].ledger, buffer[a].subs, config, x) else 0
  }

  lemma {:induction false} RoundsOfIsSum(keys: seq<Key>, events: seq<Submission>, config: Config, x: Alert)
    ensures multiset(RoundsOf(keys, events, config))[x] == Sum(keys, InRound(events, config, x))
  {
    hide ScoreRound, Group;
    if keys != [] {
      RoundsOfIsSum(keys[..|keys| - 1], events, config, x);
    }
  }

  lemma {:induction false} OpenRoundsIsSum(buffer: map<string, Round>, order: seq<string>, config: Config, x: Alert)
    requires forall i | 0 <= i < |order| :: order[i] in buffer
    ensures multiset(OpenRounds(buffer, order, config))[x] == Sum(order, InOpen(buffer, config, x))
  {
    hide ScoreRound;
    if order != [] {
      OpenRoundsIsSum(buffer, order[..|order| - 1], config, x);
    }
  }

  // -- streaming equals batch -----------------------------------------------

  /** Once an asset has moved to another round it does not come back to the old one. */
  ghost predicate NonReturning(events: seq<Submission>) {
    forall i, j, k :: !Returns(events, i, j, k)
  }

  ghost predicate Returns(events: seq<Submission>, i: int, j: int, k: int) {
    && 0 <= i < j < k < |events|
    && events[i].asset == events[j].asset == events[k].asset
    && events[i].ledger == events[k].ledger != events[j].ledger
  }

  ghost predicate LedgersAscendPerAsset(events: seq<Submission>) {
    forall i, j | 0 <= i < j < |events| && events[i].asset == events[j].asset :: events[i].ledger <= events[j].ledger
  }

  /** Index of the latest event of an asset. */
  ghost predicate Latest(events: seq<Submission>, a: string, j: int) {
    0 <= j < |events| && events[j].asset == a && forall k | j < k < |events| :: events[k].asset != a
  }

  /** What the buffer knows: each asset's latest round. */
  ghost predicate Tracks(s: Stream, events: seq<Submission>) {
    && WellFormed(s)
    && (forall i | 0 <= i < |events| :: events[i].asset in s.buffer)
    && (forall a | a in s.buffer :: exists j :: Latest(events, a, j) && s.buffer[a].ledger == events[j].ledger)
  }

  /** And, on a non-returning stream, all of it. */
  ghost predicate Holds(s: Stream, events: seq<Submission>) {
    forall a | a in s.buffer :: s.buffer[a].subs == Group(events, Key(a, s.buffer[a].ledger))
  }

  lemma FedTracks(s: Stream, events: seq<Submission>, e: Submission, config: Config)
    requires Tracks(s, events)
    ensures Tracks(Fed(s, e, config), events + [e])
  {
    hide ScoreRound;
    var t, more := Fed(s, e, config), events + [e];
    forall a | a in t.buffer ensures exists j :: Latest(more, a, j) && t.buffer[a].ledger == more[j].ledger {
      if a == e.asset {
        assert Latest(more, a, |events|);
      } else {
        var j :| Latest(events, a, j) && s.buffer[a].ledger == events[j].ledger;
        assert Latest(more, a, j);
      }
    }
  }

  /** When an asset moves on, its key is new exactly when the stream still does not return. */
  lemma MovingOn(s: Stream, events: seq<Submission>, e: Submission)
    requires Tracks(s, events) && e.asset in s.buffer && s.buffer[e.asset].ledger != e.ledger
    ensures NonReturning(events + [e]) <==> NonReturning(events) && KeyOf(e) !in KeyOrder(events)
  {
    hide KeyOrder;
    var n := |events|;
    var m :| Latest(events, e.asset, m) && s.buffer[e.asset].ledger == events[m].ledger;
    if KeyOf(e) in KeyOrder(events) {
      var i := KeysCarried(events, KeyOf(e));
      assert Returns(events + [e], i, m, n);
    } else if NonReturning(events) {
      forall i, j, k ensures !Returns(events + [e], i, j, k) {
        assert !Returns(events, i, j, k);
        if k == n && 0 <= i < n {
          KeysListed(events, i);
        }
      }
    }
    Shortened(events, e);
  }

  lemma Shortened(events: seq<Submission>, e: Submission)
    ensures NonReturning(events + [e]) ==> NonReturning(events)
  {
    forall i, j, k | Returns(events, i, j, k) ensures Returns(events + [e], i, j, k) {
    }
  }

  lemma StayingPut(s: Stream, events: seq<Submission>, e: Submission)
    requires Tracks(s, events) && e.asset in s.buffer && s.buffer[e.asset].ledger == e.ledger
    ensures KeyOf(e) in KeyOrder(events)
    ensures NonReturning(events + [e]) <==> NonReturning(events)
  {
    hide KeyOrder;
    var n := |events|;
    var m :| Latest(events, e.asset, m) && s.buffer[e.asset].ledger == events[m].ledger;
    KeysListed(events, m);
    if NonReturning(events) {
      forall i, j, k ensures !Returns(events + [e], i, j, k) {
        assert !Returns(events, i, j, k);
        assert !Returns(events, i, j, m);
      }
    }
    Shortened(events, e);
  }

  lemma FirstOfAsset(s: Stream, events: seq<Submission>, e: Submission)
    requires Tracks(s, events) && e.asset !in s.buffer
    ensures KeyOf(e) !in KeyOrder(events)
    ensures NonReturning(events + [e]) <==> NonReturning(events)
  {
    hide KeyOrder;
    if KeyOf(e) in KeyOrder(events) {
      var i := KeysCarried(events, KeyOf(e));
    }
    if NonReturning(events) {
      forall i, j, k ensures !Returns(events + [e], i, j, k) {
        assert !Returns(events, i, j, k);
      }
    }
    Shortened(events, e);
  }

  /** Rounds closed so far and rounds still open, against distinct keys. */
  ghost predicate RoundsBound(s: Stream, events: seq<Submission>) {
    && |KeyOrder(events)| <= s.scored + |s.order|
    && (|KeyOrder(events)| == s.scored + |s.order| <==> NonReturning(events))
  }

  lemma FedKeepsRounds(s: Stream, p: seq<Submission>, e: Submission, config: Config)
    requires Tracks(s, p) && RoundsBound(s, p)
    ensures RoundsBound(Fed(s, e, config), p + [e])
  {
    hide ScoreRound, KeyOrder, Tracks, NonReturning;
    KeysGrow(p, e);
    if e.asset !in s.buffer {
      FirstOfAsset(s, p, e);
    } else if s.buffer[e.asset].ledger == e.ledger {
      StayingPut(s, p, e);
    } else {
      MovingOn(s, p, e);
    }
  }

  lemma {:induction false} RoundsAgainstKeys(events: seq<Submission>, config: Config)
    ensures Tracks(FedAll(EMPTY, events, config), events)
    ensures RoundsBound(FedAll(EMPTY, events, config), events)
  {
    hide ScoreRound, Fed, Tracks, RoundsBound;
    if events == [] {
      NothingFed();
    } else {
      var n := |events| - 1;
      var p, e := events[..n], events[n];
      RoundsAgainstKeys(p, config);
      assert events == p + [e];
      FedTracks(FedAll(EMPTY, p, config), p, e, config);
      FedKeepsRounds(FedAll(EMPTY, p, config), p, e, config);
    }
  }

  lemma NothingFed()
    ensures Tracks(EMPTY, []) && RoundsBound(EMPTY, [])
  {
    assert forall i, j, k :: !Returns([], i, j, k);
  }

  lemma GroupGrows(p: seq<Submission>, e: Submission, key: Key)
    ensures Group(p + [e], key) == Group(p, key) + (if KeyOf(e) == key then [e] else [])
  {
    assert (p + [e])[..|p|] == p;
  }

  lemma KeysGrow(p: seq<Submission>, e: Submission)
    ensures KeyOrder(p + [e]) == if KeyOf(e) in KeyOrder(p) then KeyOrder(p) else KeyOrder(p) + [KeyOf(e)]
  {
    assert (p + [e])[..|p|] == p;
  }

  lemma FedHolds(s: Stream, events: seq<Submission>, e: Submission, config: Config)
    requires Tracks(s, events) && Holds(s, events)
    requires NonReturning(events + [e])
    ensures Holds(Fed(s, e, config), events + [e])
  {
    hide ScoreRound, NonReturning, Tracks, Group;
    var t := Fed(s, e, config);
    if e.asset !in s.buffer {
      FirstOfAsset(s, events, e);
      GroupOfStranger(events, KeyOf(e));
    } else if s.buffer[e.asset].ledger != e.ledger {
      MovingOn(s, events, e);
      GroupOfStranger(events, KeyOf(e));
    }
    forall a | a in t.buffer ensures t.buffer[a].subs == Group(events + [e], Key(a, t.buffer[a].ledger)) {
      GroupGrows(events, e, Key(a, t.buffer[a].ledger));
    }
  }

  /** What one event adds to the batch. */
  lemma BatchStep(p: seq<Submission>, e: Submission, config: Config, x: Alert)
    ensures var k, f, g := KeyOf(e), InRound(p, config, x), InRound(p + [e], config, x);
            && (k in KeyOrder(p) ==> Sum(KeyOrder(p + [e]), g) + f(k) == Sum(KeyOrder(p), f) + g(k))
            && (k !in KeyOrder(p) ==> Sum(KeyOrder(p + [e]), g) == Sum(KeyOrder(p), f) + g(k))
  {
    hide KeyOrder, Group, Reports;
    var k, keys := KeyOf(e), KeyOrder(p);
    var f, g := InRound(p, config, x), InRound(p + [e], config, x);
    forall i | 0 <= i < |keys| && keys[i] != k ensures f(keys[i]) == g(keys[i]) {
      GroupGrows(p, e, keys[i]);
      assert Group(p + [e], keys[i]) == Group(p, keys[i]);
    }
    KeysGrow(p, e);
    KeysAreDistinct(p);
    if k in keys {
      var i :| 0 <= i < |keys| && keys[i] == k;
      SumChangesOne(keys, i, f, g);
    } else {
      SumDependsOnKeys(keys, f, g);
      assert (keys + [k])[..|keys|] == keys;
    }
  }

  /** What one event adds to the rounds still open. */
  lemma OpenStep(s: Stream, e: Submission, config: Config, x: Alert)
    requires WellFormed(s)
    ensures var t, a := Fed(s, e, config), e.asset;
            var f, g := InOpen(s.buffer, config, x), InOpen(t.buffer, config, x);
            Sum(t.order, g) + f(a) == Sum(s.order, f) + g(a)
  {
    hide ScoreRound, Reports;
    var t, a := Fed(s, e, config), e.asset;
    var f, g := InOpen(s.buffer, config, x), InOpen(t.buffer, config, x);
    assert forall b | b != a :: f(b) == g(b);
    if a in s.order {
      var i :| 0 <= i < |s.order| && s.order[i] == a;
      SumChangesOne(s.order, i, f, g);
    } else {
      SumDependsOnKeys(s.order, f, g);
      assert (s.order + [a])[..|s.order|] == s.order;
    }
  }

  /** At every point, what was delivered plus what is open is the batch of what was fed. */
  ghost predicate Balanced(s: Stream, events: seq<Submission>, config: Config, x: Alert) {
    multiset(s.delivered)[x] + Sum(s.order, InOpen(s.buffer, config, x)) == Sum(KeyOrder(events), InRound(events, config, x))
  }

  lemma DeliveredStep(s: Stream, e: Submission, config: Config, x: Alert)
    ensures multiset(Fed(s, e, config).delivered)[x] == multiset(s.delivered)[x]
            + (if e.asset in s.buffer && s.buffer[e.asset].ledger != e.ledger then InOpen(s.buffer, config, x)(e.asset) else 0)
  {
    hide ScoreRound;
  }

  lemma StepKeepsBalance(s: Stream, p: seq<Submission>, e: Submission, config: Config, x: Alert)
    requires Tracks(s, p) && Holds(s, p) && NonReturning(p + [e])
    requires Balanced(s, p, config, x)
    ensures Holds(Fed(s, e, config), p + [e])
    ensures Balanced(Fed(s, e, config), p + [e], config, x)
  {
    hide ScoreRound, Reports, Group, Sum, KeyOrder, NonReturning, WellFormed;
    FedHolds(s, p, e, config);
    BatchStep(p, e, config, x);
    OpenStep(s, e, config, x);
    DeliveredStep(s, e, config, x);
    if e.asset !in s.buffer {
      FirstOfAsset(s, p, e);
    } else if s.buffer[e.asset].ledger == e.ledger {
      StayingPut(s, p, e);
    } else {
      MovingOn(s, p, e);
    }
  }

  lemma {:induction false} DeliveredPlusOpenIsBatch(events: seq<Submission>, config: Config, x: Alert)
    requires NonReturning(events)
    ensures Holds(FedAll(EMPTY, events, config), events)
    ensures Balanced(FedAll(EMPTY, events, config), events, config, x)
  {
    if events != [] {
      hide ScoreRound, Fed, Tracks, Holds, Balanced, NonReturning;
      var n := |events| - 1;
      var p, e := events[..n], events[n];
      assert events == p + [e];
      Shortened(p, e);
      DeliveredPlusOpenIsBatch(p, config, x);
      RoundsAgainstKeys(p, config);
      StepKeepsBalance(FedAll(EMPTY, p, config), p, e, config, x);
    }
  }

  /** Streaming a non-returning stream and flushing delivers the batch's alerts, each as often. */
  lemma StreamingEqualsBatch(events: seq<Submission>, config: Config)
    requires NonReturning(events)
    ensures WellFormed(FedAll(EMPTY, events, config))
    ensures multiset(Flushed(FedAll(EMPTY, events, config), config).delivered) == multiset(Detect(events, config))
  {
    hide ScoreRound, Fed, NonReturning, FedAll, KeyOrder, OpenRounds, RoundsOf;
    RoundsAgainstKeys(events, config);
    var s := FedAll(EMPTY, events, config);
    forall x ensures multiset(Flushed(s, config).delivered)[x] == multiset(Detect(events, config))[x] {
      DeliveredPlusOpenIsBatch(events, config, x);
      OpenRoundsIsSum(s.buffer, s.order, config, x);
      RoundsOfIsSum(KeyOrder(events), events, config, x);
    }
  }

  /** Any stream is scored in at least as many rounds as it has keys; in exactly as
      many if and only if no asset returns to a round it has left. */
  lemma RoundsScoredExactly(events: seq<Submission>, config: Config)
    ensures WellFormed(FedAll(EMPTY, events, config))
    ensures var rounds := Flushed(FedAll(EMPTY, events, config), config).scored;
            rounds >= |KeyOrder(events)| && (rounds == |KeyOrder(events)| <==> NonReturning(events))
  {
    RoundsAgainstKeys(events, config);
  }

  lemma {:induction false} AscendingDoesNotReturn(events: seq<Submission>)
    requires LedgersAscendPerAsset(events)
    ensures NonReturning(events)
  {
    forall i, j, k ensures !Returns(events, i, j, k) {
      if 0 <= i < j < k < |events| && events[i].asset == events[j].asset == events[k].asset {
        assert events[i].ledger <= events[j].ledger <= events[k].ledger;
      }
    }
  }

  /** The whole detector object against the batch entry point. */
  method RunIsBatch(detector: StreamingDetector, events: seq<Submission>) returns (alerts: seq<Alert>)
    requires detector.Valid() && detector.State() == EMPTY
    requires LedgersAscendPerAsset(events)
    modifies detector
    ensures multiset(alerts) == multiset(Detect(events, detector.config))
    ensures detector.roundsScored == |KeyOrder(events)|
    ensures detector.alertsEmitted == |alerts| && detector.delivered == alerts && detector.buffer == map[]
  {
    hide ScoreRound;
    alerts := detector.Run(events);
    AscendingDoesNotReturn(events);
    StreamingEqualsBatch(events, detector.config);
    RoundsScoredExactly(events, detector.config);
  }
}
