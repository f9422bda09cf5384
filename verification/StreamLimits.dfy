/** A stream whose asset comes back to a ledger it has left: where streaming and batch part. */
module StreamLimits {
  import opened Sorting
  import opened Detection
  import opened Streaming

  ghost predicate Agrees(events: seq<Submission>, config: Config) {
    var s := FedAll(EMPTY, events, config);
    WellFormed(s) && multiset(Flushed(s, config).delivered) == multiset(Detect(events, config))
  }

  /** The configuration that flags everything in a round of `n`, and nothing in a smaller one. */
  function WholeRound(n: nat): Config { Config(0.0, n, 0.0) }

  predicate Carries(x: Alert, key: Key) { x.asset == key.asset && x.ledger == key.ledger }

  /** Events of a key since its asset was last seen in another ledger. */
  function Current(events: seq<Submission>, key: Key): nat {
    if events == [] then 0 else
    var e, before := events[|events| - 1], Current(events[..|events| - 1], key);
    if e.asset != key.asset then before else if e.ledger == key.ledger then before + 1 else 0
  }

  lemma CurrentGrows(p: seq<Submission>, e: Submission, key: Key)
    ensures Current(p + [e], key) ==
            if e.asset != key.asset then Current(p, key) else if e.ledger == key.ledger then Current(p, key) + 1 else 0
  {
    assert (p + [e])[..|p|] == p;
  }

  // -- a round of a returning key is never whole ----------------------------

  lemma {:induction false} GroupSplits(a: seq<Submission>, b: seq<Submission>, key: Key)
    ensures Group(a + b, key) == Group(a, key) + Group(b, key)
    decreases |b|
  {
    if b == [] {
      assert a + b == a;
    } else {
      var n := |b| - 1;
      assert a + b == (a + b[..n]) + [b[n]] && b == b[..n] + [b[n]];
      GroupSplits(a, b[..n], key);
      GroupGrows(a + b[..n], b[n], key);
      GroupGrows(b[..n], b[n], key);
    }
  }

  lemma {:induction false} CurrentWithin(events: seq<Submission>, key: Key)
    ensures Current(events, key) <= |Group(events, key)|
  {
    if events != [] {
      CurrentWithin(events[..|events| - 1], key);
    }
  }

  /** What came before the asset was elsewhere is not in the current round. */
  lemma {:induction false} CurrentSince(a: seq<Submission>, e: Submission, b: seq<Submission>, key: Key)
    requires e.asset == key.asset && e.ledger != key.ledger
    ensures Current(a + [e] + b, key) <= |Group(b, key)|
    decreases |b|
  {
    if b == [] {
      assert a + [e] + b == a + [e];
      CurrentGrows(a, e, key);
    } else {
      var n := |b| - 1;
      assert a + [e] + b == (a + [e] + b[..n]) + [b[n]] && b == b[..n] + [b[n]];
      CurrentSince(a, e, b[..n], key);
      CurrentGrows(a + [e] + b[..n], b[n], key);
      GroupGrows(b[..n], b[n], key);
    }
  }

  lemma HasOne(events: seq<Submission>, i: nat)
    requires i < |events|
    ensures |Group(events, KeyOf(events[i]))| >= 1
  {
    var key := KeyOf(events[i]);
    assert events == events[..i] + ([events[i]] + events[i + 1..]);
    GroupSplits(events[..i], [events[i]] + events[i + 1..], key);
    GroupSplits([events[i]], events[i + 1..], key);
    assert [events[i]][..0] == [];
    assert Group([events[i]], key) == [events[i]];
  }

  lemma NeverWhole(events: seq<Submission>, i: nat, j: nat, k: nat, n: nat)
    requires Returns(events, i, j, k) && n <= |events|
    ensures Current(events[..n], KeyOf(events[i])) < |Group(events, KeyOf(events[i]))|
  {
    hide Group, Current;
    var key := KeyOf(events[i]);
    assert events == events[..n] + events[n..];
    GroupSplits(events[..n], events[n..], key);
    if n <= k {
      CurrentWithin(events[..n], key);
      assert events[n..][k - n] == events[k];
      HasOne(events[n..], k - n);
    } else {
      var p := events[..n];
      assert p == p[..j] + [p[j]] + p[j + 1..];
      CurrentSince(p[..j], p[j], p[j + 1..], key);
      assert p == p[..j + 1] + p[j + 1..];
      GroupSplits(p[..j + 1], p[j + 1..], key);
      assert p[..j + 1][i] == events[i];
      HasOne(p[..j + 1], i);
    }
  }

  // -- so the stream reports nothing of it ----------------------------------

  lemma {:induction false} AlertsCarryTheirRound(asset: string, ledger: int, subs: seq<Submission>, median: real, mad: real, config: Config, i: nat)
    requires i < |AlertsOf(asset, ledger, subs, median, mad, config)|
    ensures Carries(AlertsOf(asset, ledger, subs, median, mad, config)[i], Key(asset, ledger))
    decreases |subs|
  {
    hide Flagged, ZScore, DeviationBps;
    var n := |subs| - 1;
    if i < |AlertsOf(asset, ledger, subs[..n], median, mad, config)| {
      AlertsCarryTheirRound(asset, ledger, subs[..n], median, mad, config, i);
    }
  }

  ghost predicate Silent(alerts: seq<Alert>, key: Key) {
    forall i | 0 <= i < |alerts| :: !Carries(alerts[i], key)
  }

  /** A round that is not of the key, or is too small, says nothing about the key. */
  lemma RoundIsSilent(asset: string, ledger: int, subs: seq<Submission>, config: Config, key: Key)
    requires Key(asset, ledger) != key || |subs| < config.minPeers
    ensures Silent(ScoreRound(asset, ledger, subs, config), key)
  {
    hide AlertsOf, StatMedian;
    var alerts := ScoreRound(asset, ledger, subs, config);
    forall i | 0 <= i < |alerts| ensures !Carries(alerts[i], key) {
      AlertsCarryTheirRound(asset, ledger, subs, StatMedian(Prices(subs)), StatMedian(Deviations(subs, StatMedian(Prices(subs)))), config, i);
    }
  }

  /** The open round of the key's asset, if it is the key's, holds its current events. */
  ghost predicate HoldsCurrent(s: Stream, events: seq<Submission>, key: Key) {
    && WellFormed(s)
    && (key.asset !in s.buffer ==> Current(events, key) == 0)
    && (key.asset in s.buffer ==>
          Current(events, key) == if s.buffer[key.asset].ledger == key.ledger then |s.buffer[key.asset].subs| else 0)
  }

  lemma FedStaysSilent(s: Stream, p: seq<Submission>, e: Submission, config: Config, key: Key)
    requires HoldsCurrent(s, p, key) && Silent(s.delivered, key) && Current(p, key) < config.minPeers
    ensures HoldsCurrent(Fed(s, e, config), p + [e], key) && Silent(Fed(s, e, config).delivered, key)
  {
    hide ScoreRound, Current;
    CurrentGrows(p, e, key);
    if e.asset in s.buffer {
      var r := s.buffer[e.asset];
      if Key(e.asset, r.ledger) != key || |r.subs| < config.minPeers {
        RoundIsSilent(e.asset, r.ledger, r.subs, config, key);
      }
    }
  }

  lemma {:induction false} FeedStaysSilent(events: seq<Submission>, n: nat, config: Config, key: Key)
    requires n <= |events| && forall m: nat | m <= n :: Current(events[..m], key) < config.minPeers
    ensures HoldsCurrent(FedAll(EMPTY, events[..n], config), events[..n], key)
    ensures Silent(FedAll(EMPTY, events[..n], config).delivered, key)
    decreases n
  {
    if n > 0 {
      hide Fed, HoldsCurrent, Silent, Current;
      FeedStaysSilent(events, n - 1, config, key);
      assert events[..n] == events[..n - 1] + [events[n - 1]];
      assert Current(events[..n - 1], key) < config.minPeers;
      FedStaysSilent(FedAll(EMPTY, events[..n - 1], config), events[..n - 1], events[n - 1], config, key);
    }
  }

  lemma {:induction false} OpenIsSilent(buffer: map<string, Round>, order: seq<string>, config: Config, key: Key)
    requires forall i | 0 <= i < |order| :: order[i] in buffer
    requires key.asset in buffer && buffer[key.asset].ledger == key.ledger ==> |buffer[key.asset].subs| < config.minPeers
    ensures Silent(OpenRounds(buffer, order, config), key)
  {
    hide ScoreRound;
    if order != [] {
      var n := |order| - 1;
      OpenIsSilent(buffer, order[..n], config, key);
      RoundIsSilent(order[n], buffer[order[n]].ledger, buffer[order[n]].subs, config, key);
    }
  }

  lemma StreamIsSilent(events: seq<Submission>, i: nat, j: nat, k: nat)
    requires Returns(events, i, j, k)
    ensures var key := KeyOf(events[i]);
            var config := WholeRound(|Group(events, key)|);
            var s := FedAll(EMPTY, events, config);
            WellFormed(s) && Silent(Flushed(s, config).delivered, key)
  {
    hide ScoreRound, Fed, FedAll, Group, Current, OpenRounds;
    var key := KeyOf(events[i]);
    var config := WholeRound(|Group(events, key)|);
    forall m: nat | m <= |events| ensures Current(events[..m], key) < config.minPeers {
      NeverWhole(events, i, j, k, m);
    }
    FeedStaysSilent(events, |events|, config, key);
    assert events[..|events|] == events;
    var s := FedAll(EMPTY, events, config);
    assert Current(events[..|events|], key) < config.minPeers;
    OpenIsSilent(s.buffer, s.order, config, key);
  }

  // -- and the batch reports all of it --------------------------------------

  lemma WholeRoundIsFlagged(key: Key, subs: seq<Submission>)
    requires subs != []
    ensures |ScoreRound(key.asset, key.ledger, subs, WholeRound(|subs|))| == |subs|
  {
    hide StatMedian, AlertsOf;
    var median := StatMedian(Prices(subs));
    var mad := StatMedian(Deviations(subs, median));
    forall i | 0 <= i < |subs| ensures Flagged(subs[i], median, mad, WholeRound(|subs|)) {
      hide ZScore, DeviationBps;
    }
    AllAlert(key.asset, key.ledger, subs, median, mad, WholeRound(|subs|));
  }

  lemma {:induction false} RoundIsReported(keys: seq<Key>, events: seq<Submission>, config: Config, key: Key, x: Alert)
    requires key in keys && x in ScoreRound(key.asset, key.ledger, Group(events, key), config)
    ensures x in RoundsOf(keys, events, config)
  {
    hide ScoreRound, Group;
    var n := |keys| - 1;
    if keys[n] != key {
      assert keys == keys[..n] + [keys[n]];
      RoundIsReported(keys[..n], events, config, key, x);
    }
  }

  lemma BatchReports(events: seq<Submission>, i: nat) returns (x: Alert)
    requires i < |events|
    ensures var key := KeyOf(events[i]); Carries(x, key) && x in Detect(events, WholeRound(|Group(events, key)|))
  {
    hide ScoreRound, Group, RoundsOf, AlertLe;
    var key := KeyOf(events[i]);
    var subs := Group(events, key);
    HasOne(events, i);
    WholeRoundIsFlagged(key, subs);
    var alerts := ScoreRound(key.asset, key.ledger, subs, WholeRound(|subs|));
    x := alerts[0];
    FirstCarries(key, subs);
    KeysListed(events, i);
    RoundIsReported(KeyOrder(events), events, WholeRound(|subs|), key, x);
    SortIsPermutation(RoundsOf(KeyOrder(events), events, WholeRound(|subs|)), x, AlertLe);
  }

  lemma FirstCarries(key: Key, subs: seq<Submission>)
    requires |ScoreRound(key.asset, key.ledger, subs, WholeRound(|subs|))| > 0
    ensures Carries(ScoreRound(key.asset, key.ledger, subs, WholeRound(|subs|))[0], key)
  {
    hide AlertsOf, StatMedian;
    var median := StatMedian(Prices(subs));
    AlertsCarryTheirRound(key.asset, key.ledger, subs, median, StatMedian(Deviations(subs, median)), WholeRound(|subs|), 0);
  }

  /** With the right number of peers required, a returning key is reported by the batch and not by the stream. */
  lemma ReturningDisagrees(events: seq<Submission>, i: nat, j: nat, k: nat)
    requires Returns(events, i, j, k)
    ensures !Agrees(events, WholeRound(|Group(events, KeyOf(events[i]))|))
  {
    hide Detect, FedAll, Group;
    var config := WholeRound(|Group(events, KeyOf(events[i]))|);
    StreamIsSilent(events, i, j, k);
    var x := BatchReports(events, i);
    var delivered := Flushed(FedAll(EMPTY, events, config), config).delivered;
    SilentLacks(delivered, KeyOf(events[i]), x);
    assert x in multiset(Detect(events, config)) && x !in multiset(delivered);
  }

  lemma SilentLacks(alerts: seq<Alert>, key: Key, x: Alert)
    requires Silent(alerts, key) && Carries(x, key)
    ensures x !in alerts
  {
    hide Carries;
    forall i | 0 <= i < |alerts| ensures alerts[i] != x {
      assert !Carries(alerts[i], key);
    }
  }

  /** Streaming reports the batch's alerts under every configuration if and only if no asset returns to a
      ledger it has left. */
  lemma AgreesExactly(events: seq<Submission>)
    ensures (forall config :: Agrees(events, config)) <==> NonReturning(events)
  {
    if NonReturning(events) {
      forall config ensures Agrees(events, config) {
        StreamingEqualsBatch(events, config);
      }
    } else {
      var i, j, k :| Returns(events, i, j, k);
      ReturningDisagrees(events, i, j, k);
    }
  }
}
